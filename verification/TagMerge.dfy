/** How a system merge combines the tag columns of two rows of `units` or
    `talkgroups` (internal/database/systems.go). The source row is written over
    the target row; an absent target is inserted. */
module TagMerge {
  import opened Sql

  /** The `alpha_tag` and `alpha_tag_source` columns of a row. */
  datatype Tag = Tag(alpha: Text, source: Option<Label>)

  predicate HasTag(row: Option<Tag>) {
    row.Some? && NullIfEmpty(row.value.alpha).Some?
  }

  function Rank(source: Option<Label>): int {
    if source == Some(Manual) then 3 else if source == Some(Csv) then 2 else 1
  }

  predicate SourceWins(t: Tag, s: Tag) {
    Rank(s.source) >= Rank(t.source)
  }

  /** A text column governed by the label: the winner's non-empty value
      replaces the target's, the loser's only fills an empty one. */
  function MergedColumn(wins: bool, t: Text, s: Text): Text {
    var incoming := NullIfEmpty(s);
    if wins then Coalesce(incoming, t)
    else Coalesce(NullIfEmpty(t), Coalesce(incoming, t))
  }

  /** A nullable column without an empty value (`mode`, `priority`). */
  function MergedValue<T>(wins: bool, t: Option<T>, s: Option<T>): Option<T> {
    if wins then Coalesce(s, t) else Coalesce(t, s)
  }

  function MergedSource(t: Tag, s: Tag): Option<Label> {
    if NullIfEmpty(s.alpha).None? then t.source
    else if SourceWins(t, s) || NullIfEmpty(t.alpha).None? then s.source
    else t.source
  }

  /** The row an absent target becomes: a NULL tag was read as ''. */
  function Inserted(s: Tag): Tag {
    Tag(Some(OrEmpty(s.alpha)), s.source)
  }

  function Merge(target: Option<Tag>, source: Option<Tag>): Option<Tag> {
    match (target, source)
    case (_, None) => target
    case (None, Some(s)) => Some(Inserted(s))
    case (Some(t), Some(s)) =>
      Some(Tag(MergedColumn(SourceWins(t, s), t.alpha, s.alpha), MergedSource(t, s)))
  }

  /** The pair always comes from one row: a tagged source row of at least the
      target's rank replaces it whole, as does one meeting an untagged target;
      in every other case the target pair stays untouched. */
  lemma MergedPairIsOneRows(t: Tag, s: Tag)
    ensures Merge(Some(t), Some(s)) ==
            if HasTag(Some(s)) && (!HasTag(Some(t)) || Rank(s.source) >= Rank(t.source))
            then Some(s) else Some(t)
  {
  }

  /** Merging A into B into C gives what merging B and then A into C gives. */
  lemma MergeAssociative(c: Option<Tag>, b: Option<Tag>, a: Option<Tag>)
    ensures Merge(c, Merge(b, a)) == Merge(Merge(c, b), a)
  {
    if b.Some? && a.Some? {
      MergedPairIsOneRows(b.value, a.value);
    }
    if c.Some? && b.Some? {
      MergedPairIsOneRows(c.value, b.value);
    }
    if c.Some? && a.Some? {
      MergedPairIsOneRows(c.value, a.value);
    }
    if b.None? && c.None? && a.Some? {
      assert Merge(c, Merge(b, a)) == Some(Inserted(Inserted(a.value)));
    }
  }

  /** Merging the rows one after another into the first. */
  function MergeAll(rows: seq<Option<Tag>>): (r: Option<Tag>)
  {
    if |rows| == 0 then None
    else if |rows| == 1 then rows[0]
    else Merge(MergeAll(rows[..|rows| - 1]), rows[|rows| - 1])
  }

  lemma {:induction false} MergeAllConcat(front: seq<Option<Tag>>, back: seq<Option<Tag>>)
    requires front != [] && back != []
    ensures MergeAll(front + back) == Merge(MergeAll(front), MergeAll(back))
    decreases |back|
  {
    var last := |back| - 1;
    assert (front + back)[..|front| + last] == front + back[..last];
    if last == 0 {
      assert front + back[..last] == front;
    } else {
      MergeAllConcat(front, back[..last]);
      MergeAssociative(MergeAll(front), MergeAll(back[..last]), back[last]);
    }
  }

  /** A history of merges: every system's row is a leaf, every merge writes the
      row its source history produced over the row its target history did. */
  datatype History = Row(row: Option<Tag>) | Merged(target: History, source: History)

  function Outcome(h: History): Option<Tag> {
    match h
    case Row(r) => r
    case Merged(t, s) => Merge(Outcome(t), Outcome(s))
  }

  function Rows(h: History): (rows: seq<Option<Tag>>)
    ensures rows != []
  {
    match h
    case Row(r) => [r]
    case Merged(t, s) => Rows(t) + Rows(s)
  }

  /** However the merges are nested, only the order of the rows matters. */
  lemma {:induction false} NestingIsIrrelevant(h: History)
    ensures Outcome(h) == MergeAll(Rows(h))
  {
    match h
    case Row(r) =>
    case Merged(t, s) =>
      NestingIsIrrelevant(t);
      NestingIsIrrelevant(s);
      MergeAllConcat(Rows(t), Rows(s));
  }

  /** Row `w` carries a tag, no tagged row outranks it, and no later one ties. */
  ghost predicate Winner(rows: seq<Option<Tag>>, w: nat) {
    && w < |rows| && HasTag(rows[w])
    && forall i: nat | i < |rows| && HasTag(rows[i]) ::
         && Rank(rows[i].value.source) <= Rank(rows[w].value.source)
         && (Rank(rows[i].value.source) == Rank(rows[w].value.source) ==> i <= w)
  }

  /** A new last row wins if it is tagged and not outranked. */
  lemma WinnerSnoc(front: seq<Option<Tag>>, w: nat, row: Option<Tag>)
    requires Winner(front, w)
    ensures Winner(front + [row],
                   if HasTag(row) && Rank(row.value.source) >= Rank(front[w].value.source) then |front| else w)
  {
    var rows := front + [row];
    assert forall i: nat | i < |front| :: rows[i] == front[i];
  }

  ghost predicate NoneTagged(rows: seq<Option<Tag>>) {
    forall i: nat | i < |rows| :: !HasTag(rows[i])
  }

  lemma FirstWins(front: seq<Option<Tag>>, row: Option<Tag>)
    requires NoneTagged(front)
    ensures if HasTag(row) then Winner(front + [row], |front|) else NoneTagged(front + [row])
  {
    assert forall i: nat | i < |front| :: (front + [row])[i] == front[i];
  }

  /** The surviving pair is the winning row's, label included, and no tag is
      invented when no row carries one. */
  lemma {:induction false} MergeAllKeepsTheWinner(rows: seq<Option<Tag>>)
    ensures HasTag(MergeAll(rows)) <==> !NoneTagged(rows)
    ensures HasTag(MergeAll(rows)) ==>
              exists w: nat :: Winner(rows, w) && MergeAll(rows) == rows[w]
  {
    if |rows| == 1 {
      if HasTag(rows[0]) {
        assert Winner(rows, 0);
      }
    } else if |rows| > 1 {
      var front, last := rows[..|rows| - 1], rows[|rows| - 1];
      assert rows == front + [last];
      MergeAllKeepsTheWinner(front);
      var m := MergeAll(front);
      if m.Some? && last.Some? {
        MergedPairIsOneRows(m.value, last.value);
      }
      if HasTag(m) {
        var w: nat :| Winner(front, w) && m == front[w];
        WinnerSnoc(front, w, last);
        assert rows[w] == front[w];
      } else {
        FirstWins(front, last);
      }
    }
  }

  /** Both together: any nesting of merges ends with the winning row's pair. */
  lemma MergeHistoryKeepsTheWinner(h: History)
    requires !NoneTagged(Rows(h))
    ensures exists w: nat :: Winner(Rows(h), w) && Outcome(h) == Rows(h)[w]
  {
    NestingIsIrrelevant(h);
    MergeAllKeepsTheWinner(Rows(h));
  }

  // ------------------------------------------------- in the labels' own words

  /** The row has a tag that is neither NULL nor empty. */
  predicate Tagged(row: Option<Tag>) {
    row.Some? && row.value.alpha.Some? && row.value.alpha.value != ""
  }

  predicate TaggedAs(row: Option<Tag>, source: Label) {
    Tagged(row) && row.value.source == Some(source)
  }

  /** Row `w` is the last tagged one, or the last tagged with the label. */
  ghost predicate LastTagged(rows: seq<Option<Tag>>, w: nat) {
    w < |rows| && Tagged(rows[w]) && forall i: nat | w < i < |rows| :: !Tagged(rows[i])
  }

  ghost predicate LastTaggedAs(rows: seq<Option<Tag>>, source: Label, w: nat) {
    w < |rows| && TaggedAs(rows[w], source) && forall i: nat | w < i < |rows| :: !TaggedAs(rows[i], source)
  }

  ghost predicate NoneTaggedAs(rows: seq<Option<Tag>>, source: Label) {
    forall i: nat | i < |rows| :: !TaggedAs(rows[i], source)
  }

  lemma WinnerIsManual(rows: seq<Option<Tag>>, v: nat, w: nat)
    requires Winner(rows, v) && LastTaggedAs(rows, Manual, w)
    ensures v == w
  {
  }

  lemma WinnerIsCsv(rows: seq<Option<Tag>>, v: nat, w: nat)
    requires Winner(rows, v) && NoneTaggedAs(rows, Manual) && LastTaggedAs(rows, Csv, w)
    ensures v == w
  {
    assert !TaggedAs(rows[v], Manual);
  }

  lemma WinnerIsLast(rows: seq<Option<Tag>>, v: nat, w: nat)
    requires Winner(rows, v) && NoneTaggedAs(rows, Manual) && NoneTaggedAs(rows, Csv) && LastTagged(rows, w)
    ensures v == w
  {
    assert !TaggedAs(rows[v], Manual) && !TaggedAs(rows[w], Manual);
    assert !TaggedAs(rows[v], Csv) && !TaggedAs(rows[w], Csv);
  }

  /** Over any history of merges the last manual tag survives with its label; if
      no row has one, the last from a CSV; if none has that either, the last of
      all others, whatever their labels. Without any tag none appears. */
  lemma HistoryKeepsTheBestLabel(h: History)
    ensures var rows, r := Rows(h), Outcome(h);
            && (forall w: nat | LastTaggedAs(rows, Manual, w) :: r == rows[w])
            && (NoneTaggedAs(rows, Manual) ==> forall w: nat | LastTaggedAs(rows, Csv, w) :: r == rows[w])
            && (NoneTaggedAs(rows, Manual) && NoneTaggedAs(rows, Csv) ==>
                  forall w: nat | LastTagged(rows, w) :: r == rows[w])
            && ((forall i: nat | i < |rows| :: !Tagged(rows[i])) ==> !Tagged(r))
  {
    var rows := Rows(h);
    NestingIsIrrelevant(h);
    MergeAllKeepsTheWinner(rows);
    if HasTag(Outcome(h)) {
      var v: nat :| Winner(rows, v) && Outcome(h) == rows[v];
      forall w: nat | LastTaggedAs(rows, Manual, w)
        ensures w == v
      {
        WinnerIsManual(rows, v, w);
      }
      forall w: nat | NoneTaggedAs(rows, Manual) && LastTaggedAs(rows, Csv, w)
        ensures w == v
      {
        WinnerIsCsv(rows, v, w);
      }
      forall w: nat | NoneTaggedAs(rows, Manual) && NoneTaggedAs(rows, Csv) && LastTagged(rows, w)
        ensures w == v
      {
        WinnerIsLast(rows, v, w);
      }
    }
  }

  /** One merge: the source's tag replaces the target's unless the target's is
      manual and the source's is not, or the target's is from a CSV and the
      source's neither that nor manual. */
  lemma MergeTakesTheSourceUnless(t: Tag, s: Tag)
    requires Tagged(Some(t)) && Tagged(Some(s))
    ensures Merge(Some(t), Some(s)) ==
            if (t.source == Some(Manual) && s.source != Some(Manual)) ||
               (t.source == Some(Csv) && s.source != Some(Manual) && s.source != Some(Csv))
            then Some(t) else Some(s)
  {
    MergedPairIsOneRows(t, s);
  }

  /** A row only the source has is taken as it is, an absent tag as an empty one. */
  lemma MergeTakesALoneSource(s: Tag)
    ensures Merge(None, Some(s)) == Some(Tag(if s.alpha.None? then Some("") else s.alpha, s.source))
  {
  }

  /** A text column: what the source offers, unless it offers nothing or the
      target has something that stands. */
  predicate TextMerged(stands: bool, r: Text, s: Text, n: Text) {
    n == if OrEmpty(s) == "" || (stands && OrEmpty(r) != "") then r else s
  }

  predicate ValueMerged<T(==)>(stands: bool, r: Option<T>, s: Option<T>, n: Option<T>) {
    n == if s.None? || (stands && r.Some?) then r else s
  }

  lemma MergedTextMeans(r: Text, s: Text, stands: bool)
    ensures TextMerged(stands, r, s, MergedColumn(!stands, r, s))
  {
  }

  lemma MergedValueMeans<T>(r: Option<T>, s: Option<T>, stands: bool)
    ensures ValueMerged(stands, r, s, MergedValue(!stands, r, s))
  {
  }
}
