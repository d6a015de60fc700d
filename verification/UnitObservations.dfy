/** The recorder and over-the-air tag observations kept beside a unit's
    alpha_tag, and the rule that merges an incoming row's observations into the
    stored ones (internal/database/units.go, unitObservationMergeSQL). */
module UnitObservations {
  import opened Sql

  /** Tags are NULL when empty: both writers pass them through NULLIF. */
  datatype Observation = Observation(
    recorderTag: Text, recorderSeen: Time,
    otaTag: Text, otaFirst: Time, otaLast: Time)

  predicate RecorderTaken(u: Observation, e: Observation) {
    e.recorderTag.Some? &&
    (u.recorderTag.None? || u.recorderSeen.None? || AtLeast(e.recorderSeen, u.recorderSeen))
  }

  /** The incoming alias replaces an unknown, undated or not more recent one. */
  predicate OtaReplaces(u: Observation, e: Observation) {
    u.otaTag.None? || u.otaLast.None? || AtLeast(e.otaLast, u.otaLast)
  }

  function MergedOtaFirst(u: Observation, e: Observation): Time {
    if e.otaTag.None? then u.otaFirst
    else if u.otaTag == e.otaTag then
      if AtLeast(e.otaLast, u.otaFirst) then Least(u.otaFirst, e.otaFirst)
      else Coalesce(u.otaFirst, e.otaFirst)
    else if OtaReplaces(u, e) then e.otaFirst
    else u.otaFirst
  }

  function MergedOtaLast(u: Observation, e: Observation): Time {
    if e.otaTag.None? then u.otaLast
    else if u.otaTag == e.otaTag then Greatest(u.otaLast, e.otaLast)
    else if OtaReplaces(u, e) then e.otaLast
    else u.otaLast
  }

  function Merge(u: Observation, e: Observation): Observation {
    Observation(
      if RecorderTaken(u, e) then e.recorderTag else u.recorderTag,
      if e.recorderTag.Some? then Greatest(u.recorderSeen, e.recorderSeen) else u.recorderSeen,
      if e.otaTag.None? then u.otaTag
      else if u.otaTag == e.otaTag || OtaReplaces(u, e) then e.otaTag else u.otaTag,
      MergedOtaFirst(u, e),
      MergedOtaLast(u, e))
  }

  /** Folding incoming rows into the first, stored one. */
  function MergeAll(rows: seq<Observation>): Observation
    requires rows != []
  {
    if |rows| == 1 then rows[0] else Merge(MergeAll(rows[..|rows| - 1]), rows[|rows| - 1])
  }

  /** No later than, where an absent timestamp is earlier than every other. */
  predicate NotLater(a: Time, b: Time) {
    a.Some? ==> b.Some? && a.value <= b.value
  }

  /** A row without a tag carries no timestamp for it. */
  predicate NoOrphanTimes(u: Observation) {
    && (u.recorderTag.None? ==> u.recorderSeen.None?)
    && (u.otaTag.None? ==> u.otaFirst.None? && u.otaLast.None?)
  }

  /** Row `w` has the latest recorder sighting; a later row wins a tie. */
  ghost predicate LatestRecorder(rows: seq<Observation>, w: nat) {
    && w < |rows| && rows[w].recorderTag.Some?
    && forall i: nat | i < |rows| && rows[i].recorderTag.Some? ::
         && NotLater(rows[i].recorderSeen, rows[w].recorderSeen)
         && (rows[i].recorderSeen == rows[w].recorderSeen ==> i <= w)
  }

  /** Row `w` has the latest over-the-air sighting; a later row wins a tie. */
  ghost predicate LatestOta(rows: seq<Observation>, w: nat) {
    && w < |rows| && rows[w].otaTag.Some?
    && forall i: nat | i < |rows| && rows[i].otaTag.Some? ::
         && NotLater(rows[i].otaLast, rows[w].otaLast)
         && (rows[i].otaLast == rows[w].otaLast ==> i <= w)
  }

  lemma {:induction false} MergeAllNoOrphans(rows: seq<Observation>)
    requires rows != [] && NoOrphanTimes(rows[0])
    ensures NoOrphanTimes(MergeAll(rows))
  {
    if |rows| > 1 {
      MergeAllNoOrphans(rows[..|rows| - 1]);
    }
  }

  /** The recorder tag left by any sequence of rows is the one seen latest,
      with its own timestamp. */
  lemma {:induction false} RecorderTagIsTheLatest(rows: seq<Observation>)
    requires rows != [] && NoOrphanTimes(rows[0])
    ensures MergeAll(rows).recorderTag.None? ==> forall i: nat | i < |rows| :: rows[i].recorderTag.None?
    ensures MergeAll(rows).recorderTag.Some? ==>
              exists w: nat :: LatestRecorder(rows, w)
                            && MergeAll(rows).recorderTag == rows[w].recorderTag
                            && MergeAll(rows).recorderSeen == rows[w].recorderSeen
  {
    if |rows| == 1 {
      if rows[0].recorderTag.Some? {
        assert LatestRecorder(rows, 0);
      }
    } else {
      var last := |rows| - 1;
      var front := rows[..last];
      RecorderTagIsTheLatest(front);
      MergeAllNoOrphans(front);
      assert forall i: nat | i < last :: front[i] == rows[i];
      if RecorderTaken(MergeAll(front), rows[last]) {
        assert LatestRecorder(rows, last);
      } else if MergeAll(front).recorderTag.Some? {
        var w: nat :| LatestRecorder(front, w) && MergeAll(front).recorderTag == front[w].recorderTag
                   && MergeAll(front).recorderSeen == front[w].recorderSeen;
        assert LatestRecorder(rows, w);
      }
    }
  }

  /** The alias left by any sequence of rows is the one last seen latest. */
  lemma {:induction false} OtaTagIsTheLatest(rows: seq<Observation>)
    requires rows != [] && NoOrphanTimes(rows[0])
    ensures MergeAll(rows).otaTag.None? ==> forall i: nat | i < |rows| :: rows[i].otaTag.None?
    ensures MergeAll(rows).otaTag.Some? ==>
              exists w: nat :: LatestOta(rows, w)
                            && MergeAll(rows).otaTag == rows[w].otaTag
                            && MergeAll(rows).otaLast == rows[w].otaLast
  {
    if |rows| == 1 {
      if rows[0].otaTag.Some? {
        assert LatestOta(rows, 0);
      }
    } else {
      var last := |rows| - 1;
      var front := rows[..last];
      OtaTagIsTheLatest(front);
      MergeAllNoOrphans(front);
      assert forall i: nat | i < last :: front[i] == rows[i];
      var m := MergeAll(front);
      if rows[last].otaTag.Some? && OtaReplaces(m, rows[last]) {
        assert LatestOta(rows, last);
      } else if m.otaTag.Some? {
        var w: nat :| LatestOta(front, w) && m.otaTag == front[w].otaTag && m.otaLast == front[w].otaLast;
        assert LatestOta(rows, w);
      }
    }
  }

  /** A dated window for every alias, and none without one. */
  predicate Windowed(u: Observation) {
    if u.otaTag.None? then u.otaFirst.None? && u.otaLast.None?
    else u.otaFirst.Some? && u.otaLast.Some? && u.otaFirst.value <= u.otaLast.value
  }

  /** One merge keeps the window well formed and never moves its end back; its
      start moves only to the start of the incoming row's window. */
  lemma MergeKeepsWindow(u: Observation, e: Observation)
    requires Windowed(u) && Windowed(e)
    ensures Windowed(Merge(u, e))
    ensures NotLater(u.otaLast, Merge(u, e).otaLast)
    ensures Merge(u, e).otaFirst == u.otaFirst || Merge(u, e).otaFirst == e.otaFirst
    ensures Merge(u, e).otaTag == u.otaTag && u.otaTag.Some?
            && (e.otaTag.None? || e.otaLast.value < u.otaFirst.value)
            ==> Merge(u, e).otaFirst == u.otaFirst
  {
  }

  /** What one merge leaves of two windows: an alias heard again extends its
      window, to the front only if the new one does not end before it began; the
      window of another alias replaces it if it ends no earlier, and is dropped
      otherwise. */
  lemma WindowAfterMerge(u: Observation, e: Observation)
    requires Windowed(u) && Windowed(e)
    ensures var n := Merge(u, e);
            && (e.otaTag.None? ==> SameWindow(n, u))
            && (u.otaTag.None? ==> SameWindow(n, e))
            && (u.otaTag.Some? && e.otaTag.Some? && u.otaTag != e.otaTag ==>
                  SameWindow(n, if e.otaLast.value >= u.otaLast.value then e else u))
            && (u.otaTag.Some? && e.otaTag == u.otaTag ==>
                  && n.otaTag == u.otaTag && n.otaLast.Some? && n.otaFirst.Some?
                  && n.otaLast.value == Max(u.otaLast.value, e.otaLast.value)
                  && n.otaFirst.value == (if e.otaLast.value < u.otaFirst.value || u.otaFirst.value < e.otaFirst.value
                                          then u.otaFirst.value else e.otaFirst.value))
  {
  }

  predicate SameWindow(a: Observation, b: Observation) {
    a.otaTag == b.otaTag && a.otaFirst == b.otaFirst && a.otaLast == b.otaLast
  }

  function Max(a: int, b: int): int {
    if a < b then b else a
  }

  /** Over any run of rows the window stays well formed, and every earlier
      state's end bounds the final one from below. */
  lemma {:induction false} WindowOverAnyRun(rows: seq<Observation>, k: nat)
    requires 0 < k <= |rows|
    requires forall u <- rows :: Windowed(u)
    ensures Windowed(MergeAll(rows))
    ensures NotLater(MergeAll(rows[..k]).otaLast, MergeAll(rows).otaLast)
    decreases |rows|
  {
    if |rows| == 1 {
      assert rows[..k] == rows;
    } else {
      var front := rows[..|rows| - 1];
      WindowOverAnyRun(front, if k == |rows| then k - 1 else k);
      MergeKeepsWindow(MergeAll(front), rows[|rows| - 1]);
      if k == |rows| {
        assert rows[..k] == rows;
      } else {
        assert front[..k] == rows[..k];
      }
    }
  }

  /** Merging the same row a second time changes nothing. */
  lemma MergeIsIdempotent(u: Observation, e: Observation)
    ensures Merge(Merge(u, e), e) == Merge(u, e)
  {
  }
}
