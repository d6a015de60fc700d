/** Writing archive rows and unit tag CSVs into `units` and `talkgroups`
    (internal/database/units.go and internal/database/talkgroups.go). */
module ArchiveImport {
  import opened Sql
  import TagMerge
  import UnitObservations

  datatype UnitRow = UnitRow(
    alpha: Text, source: Option<Label>, firstSeen: Time, lastSeen: Time,
    observed: UnitObservations.Observation)

  /** A unit record of an export archive; empty strings stand for NULL. */
  datatype UnitExport = UnitExport(
    alpha: string, source: Option<Label>, firstSeen: Time, lastSeen: Time,
    recorderTag: string, recorderSeen: Time,
    otaTag: string, otaFirst: Time, otaLast: Time)

  datatype TalkgroupRow = TalkgroupRow(
    alpha: Text, source: Option<Label>, tag: Text, group: Text, description: Text,
    mode: Text, priority: Option<int>, firstSeen: Time, lastSeen: Time)

  datatype TalkgroupExport = TalkgroupExport(
    alpha: string, source: Option<Label>, tag: string, group: string, description: string,
    mode: string, priority: Option<int>, firstSeen: Time, lastSeen: Time)

  // ------------------------------------------------------------------ units

  function ExportedObservation(u: UnitExport): UnitObservations.Observation {
    UnitObservations.Observation(
      NullIfEmpty(Some(u.recorderTag)), u.recorderSeen,
      NullIfEmpty(Some(u.otaTag)), u.otaFirst, u.otaLast)
  }

  /** The archive tag is written over the stored one. */
  predicate UnitTagTaken(stored: Option<Label>, source: Option<Label>) {
    || source == Some(Manual)
    || (source == Some(Csv) && stored != Some(Manual))
    || (source == Some(Mqtt) && stored !in {Some(Manual), Some(Csv)})
  }

  function ImportedUnit(row: Option<UnitRow>, u: UnitExport): UnitRow {
    match row
    case None => UnitRow(Some(u.alpha), u.source, u.firstSeen, u.lastSeen, ExportedObservation(u))
    case Some(r) =>
      UnitRow(
        if u.alpha == "" then r.alpha
        else if UnitTagTaken(r.source, u.source) then Some(u.alpha)
        else Coalesce(NullIfEmpty(r.alpha), Some(u.alpha)),
        if u.alpha != "" && UnitTagTaken(r.source, u.source) then u.source else r.source,
        Least(r.firstSeen, u.firstSeen),
        Greatest(r.lastSeen, u.lastSeen),
        UnitObservations.Merge(r.observed, ExportedObservation(u)))
  }

  /** An offered tag of the archive loses to the stored one, unless that is empty:
      without a label, to a manual one if it is not manual itself, and from MQTT
      to a CSV's. */
  predicate TagLoses(stored: Option<Label>, offered: Option<Label>) {
    || offered !in {Some(Manual), Some(Csv), Some(Mqtt)}
    || (stored == Some(Manual) && offered != Some(Manual))
    || (stored == Some(Csv) && offered == Some(Mqtt))
  }

  /** What an archive record does to a stored unit: a tag that loses only fills an
      empty one, under the label there was; another brings its label. */
  lemma UnitImportMeans(r: UnitRow, u: UnitExport)
    ensures var n := ImportedUnit(Some(r), u);
            && (u.alpha == "" ==> n.alpha == r.alpha && n.source == r.source)
            && (u.alpha != "" && !TagLoses(r.source, u.source) ==> n.alpha == Some(u.alpha) && n.source == u.source)
            && (u.alpha != "" && TagLoses(r.source, u.source) ==>
                  n.source == r.source && n.alpha == if OrEmpty(r.alpha) == "" then Some(u.alpha) else r.alpha)
            && IsEarliest(n.firstSeen, [r.firstSeen, u.firstSeen]) && IsLatest(n.lastSeen, [r.lastSeen, u.lastSeen])
  {
  }

  lemma UnitImportIsIdempotent(row: Option<UnitRow>, u: UnitExport)
    ensures ImportedUnit(Some(ImportedUnit(row, u)), u) == ImportedUnit(row, u)
  {
    if row.Some? {
      UnitObservations.MergeIsIdempotent(row.value.observed, ExportedObservation(u));
    } else {
      UnitObservations.MergeIsIdempotent(ExportedObservation(u), ExportedObservation(u));
    }
  }

  /** One CSV entry over a stored row. */
  function CsvUnit(row: Option<UnitRow>, alpha: string): UnitRow {
    match row
    case None => UnitRow(Some(alpha), Some(Csv), None, None, UnitObservations.Observation(None, None, None, None, None))
    case Some(r) =>
      if r.source == Some(Manual) then r.(alpha := Coalesce(NullIfEmpty(r.alpha), Some(alpha)))
      else r.(alpha := Some(alpha), source := Some(Csv))
  }

  /** What a CSV entry does: it fills an empty manual tag, leaves any other manual
      one, and replaces everything else, as a CSV's. */
  lemma CsvEntryMeans(r: UnitRow, alpha: string)
    ensures var n := CsvUnit(Some(r), alpha);
            && n.(alpha := r.alpha, source := r.source) == r
            && (r.source != Some(Manual) ==> n.alpha == Some(alpha) && n.source == Some(Csv))
            && (r.source == Some(Manual) ==>
                  n.source == Some(Manual) && n.alpha == if OrEmpty(r.alpha) == "" then Some(alpha) else r.alpha)
    ensures var n := CsvUnit(None, alpha);
            n.alpha == Some(alpha) && n.source == Some(Csv) && n.firstSeen.None? && n.lastSeen.None?
  {
  }

  // ------------------------------------------------- edits of one unit's tag

  /** Every way the modelled code writes a unit's tag pair. */
  datatype TagEdit =
    | FromArchive(record: UnitExport)
    | FromCsv(alpha: string)
    | FromMerge(source: TagMerge.Tag)
    | FromPatch(alpha: string)

  /** The write of an approval or a unit edit (updateUnitFields with source
      'manual'): an empty tag leaves the tag but still writes the label. */
  function PatchedTag(t: TagMerge.Tag, alpha: string): TagMerge.Tag {
    TagMerge.Tag(if alpha != "" then Some(alpha) else t.alpha, Some(Manual))
  }

  function TagOf(r: UnitRow): TagMerge.Tag {
    TagMerge.Tag(r.alpha, r.source)
  }

  function EditUnit(r: UnitRow, e: TagEdit): UnitRow {
    match e
    case FromArchive(u) => ImportedUnit(Some(r), u)
    case FromCsv(alpha) => CsvUnit(Some(r), alpha)
    case FromMerge(s) =>
      var t := TagMerge.Merge(Some(TagOf(r)), Some(s)).value;
      r.(alpha := t.alpha, source := t.source)
    case FromPatch(alpha) =>
      var t := PatchedTag(TagOf(r), alpha);
      r.(alpha := t.alpha, source := t.source)
  }

  function EditAll(r: UnitRow, edits: seq<TagEdit>): UnitRow {
    if edits == [] then r else EditUnit(EditAll(r, edits[..|edits| - 1]), edits[|edits| - 1])
  }

  /** The non-empty manual tag an edit brings, if it brings one. */
  function ManualTag(e: TagEdit): Text {
    match e
    case FromArchive(u) => if u.source == Some(Manual) then NullIfEmpty(Some(u.alpha)) else None
    case FromCsv(_) => None
    case FromMerge(s) => if s.source == Some(Manual) then NullIfEmpty(s.alpha) else None
    case FromPatch(alpha) => NullIfEmpty(Some(alpha))
  }

  function LastManualTag(edits: seq<TagEdit>): Text {
    if edits == [] then None
    else Coalesce(ManualTag(edits[|edits| - 1]), LastManualTag(edits[..|edits| - 1]))
  }

  /** A non-empty manual tag is only ever replaced by another manual one: after
      any edits the unit shows the last manual tag written, still as manual. */
  lemma {:induction false} ManualTagOutlivesEdits(r: UnitRow, edits: seq<TagEdit>)
    requires r.source == Some(Manual) && NullIfEmpty(r.alpha).Some?
    ensures EditAll(r, edits).source == Some(Manual)
    ensures EditAll(r, edits).alpha == Coalesce(LastManualTag(edits), r.alpha)
    ensures NullIfEmpty(EditAll(r, edits).alpha).Some?
  {
    if edits != [] {
      ManualTagOutlivesEdits(r, edits[..|edits| - 1]);
    }
  }

  // ------------------------------------------------------------- talkgroups

  /** The archive row wins: manual > csv > mqtt > directory, ties won. */
  predicate ImportWins(source: Option<Label>, stored: Option<Label>) {
    || source == Some(Manual)
    || (source == Some(Csv) && stored != Some(Manual))
    || (source == Some(Mqtt) && stored !in {Some(Manual), Some(Csv)})
    || (source == Some(Directory) && stored !in {Some(Manual), Some(Csv), Some(Mqtt)})
  }

  function ImportedTalkgroup(row: Option<TalkgroupRow>, e: TalkgroupExport): TalkgroupRow {
    match row
    case None =>
      TalkgroupRow(Some(e.alpha), e.source, Some(e.tag), Some(e.group), Some(e.description),
                   NullIfEmpty(Some(e.mode)), e.priority, e.firstSeen, e.lastSeen)
    case Some(r) =>
      var wins := ImportWins(e.source, r.source);
      TalkgroupRow(
        TagMerge.MergedColumn(wins, r.alpha, Some(e.alpha)),
        if wins then e.source else r.source,
        TagMerge.MergedColumn(wins, r.tag, Some(e.tag)),
        TagMerge.MergedColumn(wins, r.group, Some(e.group)),
        TagMerge.MergedColumn(wins, r.description, Some(e.description)),
        TagMerge.MergedValue(wins, r.mode, NullIfEmpty(Some(e.mode))),
        TagMerge.MergedValue(wins, r.priority, e.priority),
        Least(r.firstSeen, e.firstSeen),
        Greatest(r.lastSeen, e.lastSeen))
  }

  /** An archive row loses to the stored one: without a known label, or to one of
      a higher place among manual, CSV, MQTT and directory. */
  predicate RowLoses(stored: Option<Label>, offered: Option<Label>) {
    || offered !in {Some(Manual), Some(Csv), Some(Mqtt), Some(Directory)}
    || (stored == Some(Manual) && offered != Some(Manual))
    || (stored == Some(Csv) && offered in {Some(Mqtt), Some(Directory)})
    || (stored == Some(Mqtt) && offered == Some(Directory))
  }

  /** What an archive row does to a stored talkgroup, column by column. */
  lemma TalkgroupImportMeans(r: TalkgroupRow, e: TalkgroupExport)
    ensures var n, loses := ImportedTalkgroup(Some(r), e), RowLoses(r.source, e.source);
            && TagMerge.TextMerged(loses, r.alpha, Some(e.alpha), n.alpha)
            && n.source == (if loses then r.source else e.source)
            && TagMerge.TextMerged(loses, r.tag, Some(e.tag), n.tag)
            && TagMerge.TextMerged(loses, r.group, Some(e.group), n.group)
            && TagMerge.TextMerged(loses, r.description, Some(e.description), n.description)
            && TagMerge.ValueMerged(loses, r.mode, if e.mode == "" then None else Some(e.mode), n.mode)
            && TagMerge.ValueMerged(loses, r.priority, e.priority, n.priority)
            && IsEarliest(n.firstSeen, [r.firstSeen, e.firstSeen]) && IsLatest(n.lastSeen, [r.lastSeen, e.lastSeen])
  {
    var loses := RowLoses(r.source, e.source);
    TagMerge.MergedTextMeans(r.alpha, Some(e.alpha), loses);
    TagMerge.MergedTextMeans(r.tag, Some(e.tag), loses);
    TagMerge.MergedTextMeans(r.group, Some(e.group), loses);
    TagMerge.MergedTextMeans(r.description, Some(e.description), loses);
    TagMerge.MergedValueMeans(r.mode, if e.mode == "" then None else Some(e.mode), loses);
    TagMerge.MergedValueMeans(r.priority, e.priority, loses);
  }

  lemma TalkgroupImportIsIdempotent(row: Option<TalkgroupRow>, e: TalkgroupExport)
    ensures ImportedTalkgroup(Some(ImportedTalkgroup(row, e)), e) == ImportedTalkgroup(row, e)
  {
  }

  /** An empty archive value never blanks a stored one, a losing row never
      replaces one, and a manual alpha tag loses only to a manual row. */
  lemma ImportNeverBlanks(r: TalkgroupRow, e: TalkgroupExport)
    ensures var n := ImportedTalkgroup(Some(r), e);
            && (NullIfEmpty(r.alpha).Some? ==> NullIfEmpty(n.alpha).Some?)
            && (NullIfEmpty(r.tag).Some? ==> NullIfEmpty(n.tag).Some?)
            && (NullIfEmpty(r.group).Some? ==> NullIfEmpty(n.group).Some?)
            && (NullIfEmpty(r.description).Some? ==> NullIfEmpty(n.description).Some?)
            && (r.mode.Some? ==> n.mode.Some?)
            && (r.priority.Some? ==> n.priority.Some?)
            && (NullIfEmpty(r.alpha).Some? && n.alpha != r.alpha ==>
                  n.alpha == Some(e.alpha) && e.alpha != "" && ImportWins(e.source, r.source))
            && (r.source == Some(Manual) ==> n.source == Some(Manual))
            && (r.source == Some(Manual) && NullIfEmpty(r.alpha).Some? && e.source != Some(Manual) ==>
                  n.alpha == r.alpha)
  {
  }

  /** The priority of a label, NULL last. */
  function Priority(source: Option<Label>): int {
    match source
    case Some(Manual) => 4
    case Some(Csv) => 3
    case Some(Mqtt) => 2
    case Some(Directory) => 1
    case _ => 0
  }

  /** The table constraint on talkgroup labels. */
  predicate KnownLabel(source: Option<Label>) {
    source.Some? ==> !source.value.Other?
  }

  /** The table constraint on unit labels. */
  predicate UnitLabel(source: Option<Label>) {
    source in {None, Some(Manual), Some(Csv), Some(Mqtt)}
  }

  /** Archive rows imported one after another over a stored row, if there is one. */
  function ImportAll(stored: Option<TalkgroupRow>, rows: seq<TalkgroupExport>): Option<TalkgroupRow> {
    if rows == [] then stored
    else Some(ImportedTalkgroup(ImportAll(stored, rows[..|rows| - 1]), rows[|rows| - 1]))
  }

  /** The labels the row had and was offered. */
  function Labels(stored: Option<TalkgroupRow>, rows: seq<TalkgroupExport>): seq<Option<Label>> {
    if rows == [] then if stored.Some? then [stored.value.source] else []
    else Labels(stored, rows[..|rows| - 1]) + [rows[|rows| - 1].source]
  }

  function FirstTimes(stored: Option<TalkgroupRow>, rows: seq<TalkgroupExport>): seq<Time> {
    if rows == [] then if stored.Some? then [stored.value.firstSeen] else []
    else FirstTimes(stored, rows[..|rows| - 1]) + [rows[|rows| - 1].firstSeen]
  }

  function LastTimes(stored: Option<TalkgroupRow>, rows: seq<TalkgroupExport>): seq<Time> {
    if rows == [] then if stored.Some? then [stored.value.lastSeen] else []
    else LastTimes(stored, rows[..|rows| - 1]) + [rows[|rows| - 1].lastSeen]
  }

  predicate AllKnown(labels: seq<Option<Label>>) {
    forall l <- labels :: KnownLabel(l)
  }

  ghost predicate IsBest(l: Option<Label>, labels: seq<Option<Label>>) {
    l in labels && forall x <- labels :: Priority(x) <= Priority(l)
  }

  /** `t` is the smallest of the present timestamps, absent when none is. */
  ghost predicate IsEarliest(t: Time, times: seq<Time>) {
    && (t.Some? ==> t in times)
    && forall x <- times :: x.Some? ==> t.Some? && t.value <= x.value
  }

  ghost predicate IsLatest(t: Time, times: seq<Time>) {
    && (t.Some? ==> t in times)
    && forall x <- times :: x.Some? ==> t.Some? && t.value >= x.value
  }

  /** The label after one import is the better of the two. */
  lemma LabelAfterImport(r: TalkgroupRow, e: TalkgroupExport)
    requires KnownLabel(e.source)
    ensures ImportedTalkgroup(Some(r), e).source ==
            if e.source.Some? && Priority(e.source) >= Priority(r.source) then e.source else r.source
  {
  }

  lemma BestSnoc(l: Option<Label>, labels: seq<Option<Label>>, x: Option<Label>)
    requires IsBest(l, labels)
    ensures IsBest(if x.Some? && Priority(x) >= Priority(l) then x else l, labels + [x])
  {
    assert forall y :: y in labels + [x] <==> y in labels || y == x;
  }

  /** Whatever order the archive rows arrive in, and whatever was stored, the
      row ends with the label of highest priority among them all. */
  lemma {:induction false} ImportAllTakesTheBestLabel(stored: Option<TalkgroupRow>, rows: seq<TalkgroupExport>)
    requires (stored.Some? || rows != []) && AllKnown(Labels(stored, rows))
    ensures ImportAll(stored, rows).Some?
    ensures IsBest(ImportAll(stored, rows).value.source, Labels(stored, rows))
  {
    if rows != [] {
      var front, e := rows[..|rows| - 1], rows[|rows| - 1];
      assert forall l :: l in Labels(stored, rows) <==> l in Labels(stored, front) || l == e.source;
      if stored.Some? || front != [] {
        ImportAllTakesTheBestLabel(stored, front);
        LabelAfterImport(ImportAll(stored, front).value, e);
        BestSnoc(ImportAll(stored, front).value.source, Labels(stored, front), e.source);
      }
    }
  }

  lemma ExtremesSnoc(t: Time, ts: seq<Time>, x: Time)
    ensures IsEarliest(t, ts) ==> IsEarliest(Least(t, x), ts + [x])
    ensures IsLatest(t, ts) ==> IsLatest(Greatest(t, x), ts + [x])
  {
    assert forall y :: y in ts + [x] <==> y in ts || y == x;
  }

  /** It also ends with the extreme timestamps. */
  lemma {:induction false} ImportAllTakesTheExtremes(stored: Option<TalkgroupRow>, rows: seq<TalkgroupExport>)
    requires stored.Some? || rows != []
    ensures ImportAll(stored, rows).Some?
    ensures IsEarliest(ImportAll(stored, rows).value.firstSeen, FirstTimes(stored, rows))
    ensures IsLatest(ImportAll(stored, rows).value.lastSeen, LastTimes(stored, rows))
  {
    if rows != [] {
      var front, e := rows[..|rows| - 1], rows[|rows| - 1];
      if stored.Some? || front != [] {
        ImportAllTakesTheExtremes(stored, front);
        var r := ImportAll(stored, front).value;
        ExtremesSnoc(r.firstSeen, FirstTimes(stored, front), e.firstSeen);
        ExtremesSnoc(r.lastSeen, LastTimes(stored, front), e.lastSeen);
        SeenAfterImport(r, e);
      }
    }
  }

  /** The seen times after one import, apart from the other columns. */
  lemma SeenAfterImport(r: TalkgroupRow, e: TalkgroupExport)
    ensures ImportedTalkgroup(Some(r), e).firstSeen == Least(r.firstSeen, e.firstSeen)
    ensures ImportedTalkgroup(Some(r), e).lastSeen == Greatest(r.lastSeen, e.lastSeen)
  {
  }

  lemma ExtremesAreUnique(t: Time, ts: seq<Time>, u: Time, us: seq<Time>)
    requires forall x :: x in ts <==> x in us
    ensures IsEarliest(t, ts) && IsEarliest(u, us) ==> t == u
    ensures IsLatest(t, ts) && IsLatest(u, us) ==> t == u
  {
  }

  lemma BestIsUnique(l: Option<Label>, labels: seq<Option<Label>>, m: Option<Label>, others: seq<Option<Label>>)
    requires forall x :: x in labels <==> x in others
    requires AllKnown(labels) && IsBest(l, labels) && IsBest(m, others)
    ensures l == m
  {
    assert m in labels && l in others;
    assert KnownLabel(l) && KnownLabel(m);
  }

  lemma {:induction false} OfferedMembers(stored: Option<TalkgroupRow>, rows: seq<TalkgroupExport>)
    ensures forall l :: l in Labels(stored, rows) <==> l in Labels(stored, []) || exists e <- rows :: e.source == l
    ensures forall t :: t in FirstTimes(stored, rows) <==>
                        t in FirstTimes(stored, []) || exists e <- rows :: e.firstSeen == t
    ensures forall t :: t in LastTimes(stored, rows) <==>
                        t in LastTimes(stored, []) || exists e <- rows :: e.lastSeen == t
  {
    if rows != [] {
      var front, last := rows[..|rows| - 1], rows[|rows| - 1];
      OfferedMembers(stored, front);
      assert rows == front + [last];
      assert forall e :: e in rows <==> e in front || e == last;
    }
  }

  lemma SameOffers(stored: Option<TalkgroupRow>, a: seq<TalkgroupExport>, b: seq<TalkgroupExport>)
    requires multiset(a) == multiset(b)
    ensures forall l :: l in Labels(stored, a) <==> l in Labels(stored, b)
    ensures forall t :: t in FirstTimes(stored, a) <==> t in FirstTimes(stored, b)
    ensures forall t :: t in LastTimes(stored, a) <==> t in LastTimes(stored, b)
    ensures a == [] <==> b == []
  {
    forall e
      ensures e in a <==> e in b
    {
      assert e in a <==> e in multiset(a);
      assert e in b <==> e in multiset(b);
    }
    assert a != [] ==> a[0] in b;
    assert b != [] ==> b[0] in a;
    OfferedMembers(stored, a);
    OfferedMembers(stored, b);
  }

  /** Neither the label nor the seen times depend on the order of import. */
  lemma ImportOrderIsIrrelevant(stored: Option<TalkgroupRow>, a: seq<TalkgroupExport>, b: seq<TalkgroupExport>)
    requires (stored.Some? || a != []) && AllKnown(Labels(stored, a))
    requires multiset(a) == multiset(b)
    ensures ImportAll(stored, a).Some? && ImportAll(stored, b).Some?
    ensures ImportAll(stored, a).value.source == ImportAll(stored, b).value.source
    ensures ImportAll(stored, a).value.firstSeen == ImportAll(stored, b).value.firstSeen
    ensures ImportAll(stored, a).value.lastSeen == ImportAll(stored, b).value.lastSeen
  {
    SameOffers(stored, a, b);
    ImportAllTakesTheBestLabel(stored, a);
    ImportAllTakesTheBestLabel(stored, b);
    var m, n := ImportAll(stored, a).value, ImportAll(stored, b).value;
    BestIsUnique(m.source, Labels(stored, a), n.source, Labels(stored, b));
    ImportAllTakesTheExtremes(stored, a);
    ImportAllTakesTheExtremes(stored, b);
    ExtremesAreUnique(m.firstSeen, FirstTimes(stored, a), n.firstSeen, FirstTimes(stored, b));
    ExtremesAreUnique(m.lastSeen, LastTimes(stored, a), n.lastSeen, LastTimes(stored, b));
  }

  // ----------------------------------------------------------------- tables

  datatype UnitTag = UnitTag(unitId: int, alpha: string)

  const MAX_INT32 := 0x7FFF_FFFF

  /** The primary key of `units` and of `talkgroups`. */
  datatype RowKey = RowKey(system: nat, id: nat)

  type UnitTable = map<RowKey, UnitRow>

  function Lookup<K, V>(m: map<K, V>, k: K): Option<V> {
    if k in m then Some(m[k]) else None
  }

  /** The entry that counts for a unit: the last one of the file. */
  function LastEntry(tags: seq<UnitTag>, unitId: int): Text {
    if tags == [] then None
    else if tags[|tags| - 1].unitId == unitId then Some(tags[|tags| - 1].alpha)
    else LastEntry(tags[..|tags| - 1], unitId)
  }

  predicate InRange(tags: seq<UnitTag>) {
    forall t <- tags :: 0 < t.unitId <= MAX_INT32
  }

  /** The units left by writing one tag for each unit of `entries`. */
  ghost function Written(units: UnitTable, system: nat, entries: map<nat, string>): UnitTable {
    map k: RowKey | k in units.Keys + (set u <- entries :: RowKey(system, u)) ::
      if k.system == system && k.id in entries then CsvUnit(Lookup(units, k), entries[k.id])
      else if k in units then units[k] else CsvUnit(None, "")
  }

  ghost function Entries(tags: seq<UnitTag>): map<nat, string> {
    map u: nat | u in (set t <- tags :: t.unitId) && LastEntry(tags, u).Some? :: LastEntry(tags, u).value
  }

  /** The units a CSV import leaves, and the rows it inserted or changed. */
  ghost function CsvTable(units: UnitTable, system: nat, tags: seq<UnitTag>): UnitTable {
    Written(units, system, Entries(tags))
  }

  ghost function Touched(before: UnitTable, after: UnitTable): set<RowKey> {
    set k <- after | k !in before || before[k] != after[k]
  }

  lemma {:induction false} LastEntryMeans(tags: seq<UnitTag>, unitId: int)
    ensures LastEntry(tags, unitId).Some? <==> exists t <- tags :: t.unitId == unitId
  {
    if tags != [] {
      var last := tags[|tags| - 1];
      LastEntryMeans(tags[..|tags| - 1], unitId);
      if t :| t in tags && t.unitId == unitId {
        assert t == last || t in tags[..|tags| - 1];
      }
      assert last in tags;
    }
  }

  /** Every unit of the file gets its last entry, every other row is kept. */
  lemma CsvTableMeans(units: UnitTable, system: nat, tags: seq<UnitTag>, k: RowKey)
    ensures k in CsvTable(units, system, tags) <==>
            k in units || (k.system == system && exists t <- tags :: t.unitId == k.id)
    ensures k in CsvTable(units, system, tags) ==>
              CsvTable(units, system, tags)[k] ==
              if k.system == system && LastEntry(tags, k.id).Some?
              then CsvUnit(Lookup(units, k), LastEntry(tags, k.id).value) else units[k]
  {
    LastEntryMeans(tags, k.id);
    if t :| t in tags && t.unitId == k.id {
      assert k.id in Entries(tags);
    }
  }

  /** In terms of the file: the last entry of a unit replaces any tag but a manual
      one that is not empty. */
  lemma CsvLeaves(units: UnitTable, system: nat, tags: seq<UnitTag>, i: nat)
    requires i < |tags| && tags[i].unitId >= 0 && forall j :: i < j < |tags| ==> tags[j].unitId != tags[i].unitId
    ensures var k := RowKey(system, tags[i].unitId);
            && k in CsvTable(units, system, tags)
            && var n := CsvTable(units, system, tags)[k];
            && (k !in units || units[k].source != Some(Manual) ==>
                  n.alpha == Some(tags[i].alpha) && n.source == Some(Csv))
            && (k in units && units[k].source == Some(Manual) ==>
                  && n.source == Some(Manual)
                  && n.alpha == if OrEmpty(units[k].alpha) == "" then Some(tags[i].alpha) else units[k].alpha)
  {
    var k := RowKey(system, tags[i].unitId);
    LastEntryIs(tags, i);
    assert tags[i] in tags;
    CsvTableMeans(units, system, tags, k);
    if k in units {
      CsvEntryMeans(units[k], tags[i].alpha);
    }
  }

  lemma {:induction false} LastEntryIs(tags: seq<UnitTag>, i: nat)
    requires i < |tags| && forall j :: i < j < |tags| ==> tags[j].unitId != tags[i].unitId
    ensures LastEntry(tags, tags[i].unitId) == Some(tags[i].alpha)
  {
    if i < |tags| - 1 {
      LastEntryIs(tags[..|tags| - 1], i);
    }
  }

  /** Importing an unchanged CSV again touches no row. */
  lemma CsvImportIsIdempotent(units: UnitTable, system: nat, tags: seq<UnitTag>)
    ensures CsvTable(CsvTable(units, system, tags), system, tags) == CsvTable(units, system, tags)
    ensures Touched(CsvTable(units, system, tags), CsvTable(CsvTable(units, system, tags), system, tags)) == {}
  {
    var once := CsvTable(units, system, tags);
    var twice := CsvTable(once, system, tags);
    forall k: RowKey
      ensures k in twice <==> k in once
      ensures k in once ==> twice[k] == once[k]
    {
      CsvTableMeans(units, system, tags, k);
      CsvTableMeans(once, system, tags, k);
      LastEntryMeans(tags, k.id);
    }
    assert twice == once;
  }

  lemma WrittenMeans(units: UnitTable, system: nat, entries: map<nat, string>, k: RowKey)
    ensures k in Written(units, system, entries) <==> k in units || (k.system == system && k.id in entries)
    ensures k in Written(units, system, entries) ==>
              Written(units, system, entries)[k] ==
              if k.system == system && k.id in entries then CsvUnit(Lookup(units, k), entries[k.id]) else units[k]
  {
    if k.system == system && k.id in entries {
      assert k == RowKey(system, k.id);
    }
  }

  /** Writing one more entry changes that row only. */
  lemma WrittenStep(units: UnitTable, system: nat, entries: map<nat, string>, u: nat, alpha: string)
    requires u !in entries
    ensures var k := RowKey(system, u);
            && Lookup(Written(units, system, entries), k) == Lookup(units, k)
            && Written(units, system, entries[u := alpha]) ==
               Written(units, system, entries)[k := CsvUnit(Lookup(units, k), alpha)]
  {
    var k := RowKey(system, u);
    var two := Written(units, system, entries)[k := CsvUnit(Lookup(units, k), alpha)];
    WrittenMeans(units, system, entries, k);
    forall l: RowKey
      ensures l in Written(units, system, entries[u := alpha]) <==> l in two
      ensures l in two ==> Written(units, system, entries[u := alpha])[l] == two[l]
    {
      WrittenMeans(units, system, entries, l);
      WrittenMeans(units, system, entries[u := alpha], l);
    }
    assert Written(units, system, entries[u := alpha]) == two;
  }

  /** Writing a row not touched so far counts it once, if it differs. */
  lemma TouchedStep(before: UnitTable, now: UnitTable, k: RowKey, row: UnitRow)
    requires Lookup(now, k) == Lookup(before, k)
    ensures Lookup(now, k) == Some(row) ==> now[k := row] == now
    ensures Lookup(now, k) != Some(row) ==> |Touched(before, now[k := row])| == |Touched(before, now)| + 1
  {
    if Lookup(now, k) != Some(row) {
      var one, two := Touched(before, now), Touched(before, now[k := row]);
      assert k !in one;
      assert forall l :: l in two <==> l in one || l == k;
      assert two == one + {k};
    }
  }

  /** The tables the imports write. */
  class TagTables {
    var units: UnitTable
    var talkgroups: map<RowKey, TalkgroupRow>

    constructor ()
      ensures units == map[] && talkgroups == map[]
    {
      units, talkgroups := map[], map[];
    }

    /** Fails, writing nothing, when the label breaks the table constraint: the
        row to insert must satisfy it even where another is updated instead. */
    method ImportUpsertUnit(system: nat, unitId: nat, u: UnitExport) returns (ok: bool)
      modifies `units
      ensures ok <==> UnitLabel(u.source)
      ensures units ==
              if !ok then old(units)
              else old(units)[RowKey(system, unitId) := ImportedUnit(Lookup(old(units), RowKey(system, unitId)), u)]
    {
      if !UnitLabel(u.source) {
        return false;
      }
      var k := RowKey(system, unitId);
      if k in units {
        var r := units[k];
        var alpha := r.alpha;
        var source := r.source;
        if u.alpha != "" {
          if u.source == Some(Manual) {
            alpha, source := Some(u.alpha), u.source;
          } else if u.source == Some(Csv) && r.source != Some(Manual) {
            alpha, source := Some(u.alpha), u.source;
          } else if u.source == Some(Mqtt) && r.source !in {Some(Manual), Some(Csv)} {
            alpha, source := Some(u.alpha), u.source;
          } else {
            alpha := Coalesce(NullIfEmpty(r.alpha), Some(u.alpha));
          }
        }
        units := units[k := UnitRow(alpha, source,
                                    Least(r.firstSeen, u.firstSeen), Greatest(r.lastSeen, u.lastSeen),
                                    UnitObservations.Merge(r.observed, ExportedObservation(u)))];
      } else {
        units := units[k := UnitRow(Some(u.alpha), u.source, u.firstSeen, u.lastSeen, ExportedObservation(u))];
      }
      ok := true;
    }

    /** Fails, writing nothing, when the label breaks the table constraint. */
    method ImportUpsertTalkgroup(system: nat, tgid: nat, e: TalkgroupExport) returns (ok: bool)
      modifies `talkgroups
      ensures ok <==> KnownLabel(e.source)
      ensures talkgroups ==
              if !ok then old(talkgroups)
              else
                var k := RowKey(system, tgid);
                old(talkgroups)[k := ImportedTalkgroup(Lookup(old(talkgroups), k), e)]
    {
      if !KnownLabel(e.source) {
        return false;
      }
      var k := RowKey(system, tgid);
      if k !in talkgroups {
        var mode := if e.mode == "" then None else Some(e.mode);
        var row := TalkgroupRow(Some(e.alpha), e.source, Some(e.tag), Some(e.group), Some(e.description),
                                mode, e.priority, e.firstSeen, e.lastSeen);
        talkgroups := talkgroups[k := row];
        return true;
      }
      var r := talkgroups[k];
      var wins := WinsOver(e.source, r.source);
      var alpha := ImportedText(wins, r.alpha, e.alpha);
      var source := r.source;
      if wins {
        source := e.source;
      }
      var tag := ImportedText(wins, r.tag, e.tag);
      var group := ImportedText(wins, r.group, e.group);
      var description := ImportedText(wins, r.description, e.description);
      var mode, priority := r.mode, r.priority;
      if e.mode != "" && (wins || r.mode.None?) {
        mode := Some(e.mode);
      }
      if e.priority.Some? && (wins || r.priority.None?) {
        priority := e.priority;
      }
      talkgroups := talkgroups[k := TalkgroupRow(alpha, source, tag, group, description, mode, priority,
                                                 Least(r.firstSeen, e.firstSeen), Greatest(r.lastSeen, e.lastSeen))];
      ok := true;
    }

    /** The condition of every CASE of the talkgroup import. */
    static method WinsOver(source: Option<Label>, stored: Option<Label>) returns (wins: bool)
      ensures wins <==> ImportWins(source, stored)
      ensures wins <==> source.Some? && KnownLabel(source) && Priority(source) >= Priority(stored)
    {
      wins := source == Some(Manual);
      if source == Some(Csv) {
        wins := stored != Some(Manual);
      } else if source == Some(Mqtt) {
        wins := stored != Some(Manual) && stored != Some(Csv);
      } else if source == Some(Directory) {
        wins := stored.None? || stored.value.Directory? || stored.value.Other?;
      }
    }

    /** The CASE of one text column. */
    static method ImportedText(wins: bool, stored: Text, offered: string) returns (text: Text)
      ensures text == TagMerge.MergedColumn(wins, stored, Some(offered))
      ensures text != stored ==> text == Some(offered) && offered != "" && (wins || OrEmpty(stored) == "")
    {
      text := stored;
      if offered != "" && (wins || OrEmpty(stored) == "") {
        text := Some(offered);
      }
    }

    /** Applies a whole CSV or, when a unit ID is out of range, nothing.
        `changed` is the number of rows inserted or changed. */
    method ImportUnitTags(system: nat, tags: seq<UnitTag>) returns (ok: bool, changed: nat)
      modifies `units
      ensures ok <==> InRange(tags)
      ensures units == if ok then CsvTable(old(units), system, tags) else old(units)
      ensures changed == |Touched(old(units), units)|
    {
      var latest;
      ok, latest := LatestEntries(tags);
      if ok {
        units, changed := WriteEntries(units, system, latest);
      } else {
        changed := 0;
        assert Touched(old(units), units) == {};
      }
    }
  }

  /** Upserts one row for each unit; a row that would not change is left alone. */
  method WriteEntries(units: UnitTable, system: nat, latest: map<nat, string>)
    returns (written: UnitTable, changed: nat)
    ensures written == Written(units, system, latest)
    ensures changed == |Touched(units, written)|
  {
    written, changed := units, 0;
    var todo := latest.Keys;
    assert latest - todo == map[];
    assert Written(units, system, map[]) == units && Touched(units, units) == {};
    while todo != {}
      invariant todo <= latest.Keys
      invariant written == Written(units, system, latest - todo)
      invariant changed == |Touched(units, written)|
    {
      var u :| u in todo;
      var k := RowKey(system, u);
      assert latest - (todo - {u}) == (latest - todo)[u := latest[u]];
      WrittenStep(units, system, latest - todo, u, latest[u]);
      var row := CsvUnit(Lookup(written, k), latest[u]);
      TouchedStep(units, written, k, row);
      if Lookup(written, k) != Some(row) {
        written := written[k := row];
        changed := changed + 1;
      }
      todo := todo - {u};
    }
    assert latest - todo == latest;
  }

  /** The last entry of each unit, unless an ID is out of range. */
  method LatestEntries(tags: seq<UnitTag>) returns (ok: bool, latest: map<nat, string>)
    ensures ok <==> InRange(tags)
    ensures ok ==> latest == Entries(tags)
  {
    latest := map[];
    for i := 0 to |tags|
      invariant InRange(tags[..i])
      invariant forall u :: u in latest <==> LastEntry(tags[..i], u).Some?
      invariant forall u <- latest :: LastEntry(tags[..i], u) == Some(latest[u])
    {
      assert tags[..i + 1][..i] == tags[..i];
      if !(0 < tags[i].unitId <= MAX_INT32) {
        assert tags[i] in tags;
        return false, latest;
      }
      latest := latest[tags[i].unitId := tags[i].alpha];
    }
    assert tags[..|tags|] == tags;
    forall u: nat
      ensures u in latest <==> u in Entries(tags)
    {
      LastEntryMeans(tags, u);
    }
    ok := true;
  }
}
