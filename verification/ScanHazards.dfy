/** When a fetched batch would take the scanner's cursor past a transcription that
    is still to come: exactly when, and a run for each of the three hypotheses
    that breaks it (internal/database/unit_tag_suggestions.go:191-239,
    internal/database/transcriptions.go:169-242). */
module ScanHazards {
  import opened ScanCursor

  /** Applying the batch would pass an ID that is still to come. */
  ghost predicate Unsafe(db: Db, ids: seq<nat>) {
    ids != [] && !Closed(db, ids[|ids| - 1])
  }

  /** An open transaction drew its ID before the row's writer drew the row's, but
      the writer's xid came in between: the transaction drew its ID after the
      writer took its xid, or takes its own xid only after the writer did. */
  ghost predicate Crossed(t: Tx, id: nat, r: Row) {
    && HasId(t) && t.id < id
    && (r.from <= t.id || (t.next <= r.xid && (HasXid(t) ==> r.xid < t.xid)))
  }

  ghost predicate AnyCrossed(db: Db, ids: seq<nat>) {
    exists t <- db.open, id <- ids :: id in db.rows && Crossed(db.open[t], id, db.rows[id])
  }

  lemma UnsafeIsCrossed(db: Db, ids: seq<nat>)
    requires DbInv(db) && HistoryInv(db) && Unsafe(db, ids)
    requires ids[|ids| - 1] in db.rows && BeforeAllOpen(db, db.rows[ids[|ids| - 1]].xid)
    ensures AnyCrossed(db, ids)
  {
    var to := ids[|ids| - 1];
    assert to in ids && RowOk(db, to, db.rows[to]);
    var t :| t in db.open && HasId(db.open[t]) && db.open[t].id <= to;
    assert TxOk(db, db.open[t]);
    assert Crossed(db.open[t], to, db.rows[to]);
  }

  lemma CrossedIsUnsafe(db: Db, ids: seq<nat>)
    requires AnyCrossed(db, ids) && forall id <- ids :: id <= ids[|ids| - 1]
    ensures Unsafe(db, ids)
  {
    var t, id :| t in db.open && id in ids && id in db.rows && Crossed(db.open[t], id, db.rows[id]);
    assert db.open[t].id <= ids[|ids| - 1];
  }

  lemma BatchAscends(db: Db, now: int, after: nat, limit: nat)
    ensures forall id <- Batch(db, now, after, limit) ::
            id <= Batch(db, now, after, limit)[|Batch(db, now, after, limit)| - 1]
  {
    var ids := Batch(db, now, after, limit);
    BatchMeans(db, now, after, limit);
    if ids != [] {
      IdsInMembers(db.rows.Keys, after + 1, ids[|ids| - 1] + 1);
    }
  }

  lemma BatchEndsOld(db: Db, now: int, after: nat, limit: nat)
    requires DbInv(db) && Unescaped(db, now, Batch(db, now, after, limit)) && Batch(db, now, after, limit) != []
    ensures var ids := Batch(db, now, after, limit);
            var to := ids[|ids| - 1];
            to in db.rows && BeforeAllOpen(db, db.rows[to].xid)
  {
    var ids := Batch(db, now, after, limit);
    assert ids[|ids| - 1] in ids;
    FetchedRowIsOld(db, now, after, limit, ids[|ids| - 1]);
  }

  /** After any run: a batch that did not need the escape is unsafe if and
      only if the xid of the writer of one of its rows came between the ID and the
      xid of an open transaction, or such a transaction's ID between the xid and
      the ID of that writer (transcriptions.go:178-202). It is safe if everyone
      concerned took both at one moment. */
  lemma UnescapedBatchIsUnsafeIff(steps: seq<Step>, after: nat, limit: nat)
    requires Runs(START, steps)
    requires var m := After(START, steps); Unescaped(m.db, m.now, Batch(m.db, m.now, after, limit))
    ensures var m := After(START, steps);
            var ids := Batch(m.db, m.now, after, limit);
            && (Unsafe(m.db, ids) <==> AnyCrossed(m.db, ids))
            && (TogetherInv(m.db) ==> !Unsafe(m.db, ids))
  {
    RunKeepsHistory(steps);
    var m := After(START, steps);
    var ids := Batch(m.db, m.now, after, limit);
    if Unsafe(m.db, ids) {
      BatchEndsOld(m.db, m.now, after, limit);
      UnsafeIsCrossed(m.db, ids);
    }
    if AnyCrossed(m.db, ids) {
      BatchAscends(m.db, m.now, after, limit);
      CrossedIsUnsafe(m.db, ids);
    }
    if TogetherInv(m.db) && ids != [] {
      BatchEndsClosed(m.db, m.now, after, limit);
    }
  }

  /** An open transaction that has inserted has a lower xid than the last row. */
  ghost predicate OlderWriterOpen(db: Db, ids: seq<nat>) {
    && ids != [] && ids[|ids| - 1] in db.rows
    && exists t <- db.open :: db.open[t].Inserted? && db.open[t].xid < db.rows[ids[|ids| - 1]].xid
  }

  lemma UnsafeIsOlderWriter(db: Db, ids: seq<nat>)
    requires DbInv(db) && HistoryInv(db) && TogetherInv(db)
    requires ids != [] ==> ids[|ids| - 1] in db.rows
    ensures Unsafe(db, ids) <==> OlderWriterOpen(db, ids)
  {
    if ids != [] {
      var to := ids[|ids| - 1];
      assert RowOk(db, to, db.rows[to]);
      forall t <- db.open | HasId(db.open[t])
        ensures db.open[t].id <= to <==> db.open[t].Inserted? && db.open[t].xid < db.rows[to].xid
      {
        assert TxOk(db, db.open[t]);
      }
    }
  }

  /** After any run whose inserts take ID and xid together: a batch, fetched
      through the one-hour escape or not, is unsafe if and only if a transaction
      that has inserted and has a lower xid than the batch's last row is open. */
  lemma OrderedBatchIsUnsafeIff(steps: seq<Step>, h: Hypotheses, after: nat, limit: nat)
    requires h.clean && h.instant && Runs(START, steps) && GuardedRun(START, steps, h)
    ensures var m := After(START, steps);
            var ids := Batch(m.db, m.now, after, limit);
            Unsafe(m.db, ids) <==> OlderWriterOpen(m.db, ids)
  {
    RunKeepsTogether(steps, h);
    var m := After(START, steps);
    var ids := Batch(m.db, m.now, after, limit);
    BatchMeans(m.db, m.now, after, limit);
    if ids != [] {
      assert ids[|ids| - 1] in ids;
    }
    UnsafeIsOlderWriter(m.db, ids);
  }

  /** Some run that keeps the hypotheses `h` ends in `m`. */
  ghost predicate Reachable(h: Hypotheses, m: State) {
    exists steps :: Runs(START, steps) && GuardedRun(START, steps, h) && After(START, steps) == m
  }

  lemma Extends(h: Hypotheses, m: State, step: Step)
    requires Reachable(h, m) && Enabled(m, step) && Guarded(m, step, h)
    ensures Reachable(h, Next(m, step))
  {
    var steps :| Runs(START, steps) && GuardedRun(START, steps, h) && After(START, steps) == m;
    var all := steps + [step];
    assert all[..|all| - 1] == steps;
    assert Runs(START, all) && GuardedRun(START, all, h);
  }

  /** The cursor moved past an ID that an open transaction still holds. */
  ghost predicate Passed(s: State) {
    exists t <- s.db.open :: HasId(s.db.open[t]) && s.db.open[t].id <= s.scan.cursor
  }

  /** Read the cursor and fetch. */
  lemma ScanFetches(h: Hypotheses, m: State, ids: seq<nat>)
    requires Reachable(h, m) && m.scan == START.scan
    requires Batch(m.db, m.now, 0, 500) == ids
    requires h.unescaped ==> Unescaped(m.db, m.now, ids)
    ensures Reachable(h, State(m.now, m.db, Scan(0, map[0 := 0], map[0 := Held(0, ids)], [])))
  {
    Extends(h, m, ReadCursor(0));
    var m1 := State(m.now, m.db, Scan(0, map[0 := 0], map[], []));
    assert Next(m, ReadCursor(0)) == m1;
    Extends(h, m1, Fetch(0, 500));
    assert Next(m1, Fetch(0, 500)) == State(m.now, m.db, Scan(0, map[0 := 0], map[0 := Held(0, ids)], []));
  }

  /** And apply. */
  lemma ScanPasses(h: Hypotheses, m: State, ids: seq<nat>)
    requires Reachable(h, m) && m.scan == START.scan
    requires ids != [] && Batch(m.db, m.now, 0, 500) == ids
    requires h.unescaped ==> Unescaped(m.db, m.now, ids)
    ensures Reachable(h, State(m.now, m.db, Scan(ids[|ids| - 1], map[0 := 0], map[], ids)))
  {
    ScanFetches(h, m, ids);
    var m2 := State(m.now, m.db, Scan(0, map[0 := 0], map[0 := Held(0, ids)], []));
    AppliedFromStart(ids);
    Extends(h, m2, Apply(0, false));
  }

  lemma AppliedFromStart(ids: seq<nat>)
    requires ids != []
    ensures Applied(Scan(0, map[0 := 0], map[0 := Held(0, ids)], []), 0, false) ==
            Scan(ids[|ids| - 1], map[0 := 0], map[], ids)
  {
    var held := map[0 := Held(0, ids)];
    assert held - {0} == map[] && [] + ids == ids;
  }

  lemma {:induction false} NoIds(ids: set<nat>, lo: nat, hi: nat)
    requires forall id <- ids :: !(lo <= id < hi)
    ensures IdsIn(ids, lo, hi) == []
    decreases hi - lo
  {
    if lo < hi {
      NoIds(ids, lo + 1, hi);
    }
  }

  /** The members from `lo` on, when the first of them is known. */
  lemma {:induction false} FirstId(ids: set<nat>, lo: nat, first: nat, hi: nat)
    requires first in ids && lo <= first < hi && forall id <- ids :: !(lo <= id < first)
    ensures IdsIn(ids, lo, hi) == [first] + IdsIn(ids, first + 1, hi)
    decreases first - lo
  {
    if lo < first {
      FirstId(ids, lo + 1, first, hi);
    }
  }

  lemma OneRowBatch(db: Db, now: int, id: nat)
    requires 0 < id < db.nextId && db.rows.Keys == {id}
    requires Settled(db.rows[id], now, Xmin(db))
    ensures Batch(db, now, 0, 500) == [id]
  {
    FirstId(db.rows.Keys, 1, id, db.nextId);
    NoIds(db.rows.Keys, id + 1, db.nextId);
    var ids := [id];
    assert IdsIn(db.rows.Keys, 1, db.nextId) == ids && ids[1..] == [];
    assert SettledPrefix(db, now, ids[1..]) == [];
  }

  lemma TwoRowBatch(db: Db, now: int, a: nat, b: nat)
    requires 0 < a < b < db.nextId && db.rows.Keys == {a, b}
    requires Settled(db.rows[a], now, Xmin(db)) && Settled(db.rows[b], now, Xmin(db))
    ensures Batch(db, now, 0, 500) == [a, b]
  {
    FirstId(db.rows.Keys, 1, a, db.nextId);
    FirstId(db.rows.Keys, a + 1, b, db.nextId);
    NoIds(db.rows.Keys, b + 1, db.nextId);
    var ids := [a, b];
    assert IdsIn(db.rows.Keys, 1, db.nextId) == ids && ids[1..] == [b] && [b][1..] == [];
    assert SettledPrefix(db, now, [b][1..]) == [];
    assert SettledPrefix(db, now, ids[1..]) == [b];
  }

  function Store(now: int, db: Db): State {
    State(now, db, START.scan)
  }

  lemma CanStart(h: Hypotheses)
    ensures Reachable(h, Store(0, START.db))
  {
    assert Runs(START, []) && GuardedRun(START, [], h);
  }

  lemma CanWait(h: Hypotheses, now: int, db: Db, seconds: nat)
    requires Reachable(h, Store(now, db))
    ensures Reachable(h, Store(now + seconds, db))
  {
    Extends(h, Store(now, db), Tick(seconds));
  }

  /** A transaction begins and draws its ID. */
  lemma CanDraw(h: Hypotheses, now: int, db: Db, t: nat)
    requires Reachable(h, Store(now, db)) && t !in db.open && !OtherDrawn(db, t)
    ensures var drawn := Drawn(now, db.nextId, db.nextXid);
            Reachable(h, Store(now, Db(db.open[t := drawn], db.rows, db.nextId + 1, db.nextXid)))
  {
    Extends(h, Store(now, db), BeginTx(t));
    var begun := db.(open := db.open[t := Reading(now)]);
    Extends(h, Store(now, begun), DrawTx(t));
    assert begun.open[t := Drawn(now, db.nextId, db.nextXid)] == db.open[t := Drawn(now, db.nextId, db.nextXid)];
  }

  /** One that has begun draws its ID. */
  lemma CanDrawLater(h: Hypotheses, now: int, db: Db, t: nat)
    requires Reachable(h, Store(now, db)) && t in db.open && (db.open[t].Reading? || db.open[t].Writing?)
    requires h.clean ==> db.open[t].Reading?
    requires h.instant ==> !OtherDrawn(db, t)
    ensures Reachable(h, Store(now, Draw(db, t)))
  {
    Extends(h, Store(now, db), DrawTx(t));
  }

  lemma CanWriteRow(h: Hypotheses, now: int, db: Db, t: nat)
    requires Reachable(h, Store(now, db)) && t in db.open && db.open[t].Drawn?
    requires h.instant ==> !OtherDrawn(db, t)
    ensures Reachable(h, Store(now, WriteRow(db, t)))
  {
    Extends(h, Store(now, db), RowTx(t));
  }

  lemma CanCommit(h: Hypotheses, now: int, db: Db, t: nat)
    requires Reachable(h, Store(now, db)) && t in db.open && !db.open[t].Drawn?
    ensures Reachable(h, Store(now, Commit(db, t)))
  {
    Extends(h, Store(now, db), CommitTx(t));
  }

  // ------------------------------------------------ an update before the insert

  const FIRST_ROW: Row := Row(3, 2, 3, 3, 0)

  /** Writer 1 stores a transcription. */
  lemma FirstStored(h: Hypotheses)
    ensures Reachable(h, Store(0, Db(map[], map[1 := FIRST_ROW], 2, 4)))
  {
    CanStart(h);
    CanDraw(h, 0, START.db, 1);
    CanWriteRow(h, 0, Db(map[1 := Drawn(0, 1, 3)], map[], 2, 3), 1);
    var db := Db(map[1 := Inserted(0, 3, 2, {}, 1, 3)], map[], 2, 4);
    CanCommit(h, 0, db, 1);
    assert Commit(db, 1) == Db(map[], map[1 := FIRST_ROW], 2, 4);
  }

  /** Writer 2, of the same call, clears it and so takes its xid. */
  lemma EarlyXidTaken(h: Hypotheses)
    ensures Reachable(h, Store(0, Db(map[2 := Writing(0, 4, 2, {1})], map[1 := FIRST_ROW], 2, 5)))
  {
    FirstStored(h);
    var db := Db(map[], map[1 := FIRST_ROW], 2, 4);
    Extends(h, Store(0, db), BeginTx(2));
    var begun := Db(map[2 := Reading(0)], map[1 := FIRST_ROW], 2, 4);
    assert {1} != {} && {1} <= begun.rows.Keys;
    Extends(h, Store(0, begun), ClearTx(2, {1}, {1}));
  }

  /** Writer 3 takes an ID and an xid. */
  lemma LaterXidTaken(h: Hypotheses)
    ensures Reachable(h, Store(0, Db(map[2 := Writing(0, 4, 2, {1}), 3 := Inserted(0, 5, 3, {}, 2, 5)],
                                     map[1 := FIRST_ROW], 3, 6)))
  {
    EarlyXidTaken(h);
    var two := map[2 := Writing(0, 4, 2, {1})];
    CanDraw(h, 0, Db(two, map[1 := FIRST_ROW], 2, 5), 3);
    CanWriteRow(h, 0, Db(two[3 := Drawn(0, 2, 5)], map[1 := FIRST_ROW], 3, 5), 3);
  }

  const CLEARED_ROW: Row := Row(3, 2, 4, 4, 0)
  const LATE_ROW: Row := Row(4, 2, 4, 4, 0)

  const OPEN_ID: Tx := Inserted(0, 5, 3, {}, 2, 5)

  /** Writer 2 takes its ID. */
  lemma EarlyXidInserted(h: Hypotheses)
    requires !h.clean
    ensures Reachable(h, Store(0, Db(map[2 := Inserted(0, 4, 2, {1}, 3, 6), 3 := OPEN_ID], map[1 := FIRST_ROW], 4, 6)))
  {
    LaterXidTaken(h);
    var db := Db(map[2 := Writing(0, 4, 2, {1}), 3 := OPEN_ID], map[1 := FIRST_ROW], 3, 6);
    CanDrawLater(h, 0, db, 2);
    assert Draw(db, 2) == Db(map[2 := Inserted(0, 4, 2, {1}, 3, 6), 3 := OPEN_ID], map[1 := FIRST_ROW], 4, 6);
  }

  /** And commits. */
  lemma EarlyXidCommitted(h: Hypotheses)
    requires !h.clean
    ensures Reachable(h, Store(0, Db(map[3 := OPEN_ID], map[1 := CLEARED_ROW, 3 := LATE_ROW], 4, 6)))
  {
    EarlyXidInserted(h);
    var db := Db(map[2 := Inserted(0, 4, 2, {1}, 3, 6), 3 := OPEN_ID], map[1 := FIRST_ROW], 4, 6);
    CanCommit(h, 0, db, 2);
    assert Commit(db, 2) == Db(map[3 := OPEN_ID], map[1 := CLEARED_ROW, 3 := LATE_ROW], 4, 6);
  }

  /** The first hypothesis is needed: a writer that takes its xid by clearing an
      older row (transcriptions.go:178-185) and its ID after another's makes the
      cursor pass the other's ID, although every row passed the xid test. */
  lemma EarlyXidPassesAnOpenId()
    ensures exists m :: Reachable(Hypotheses(false, true, true), m) && Passed(m)
  {
    var h := Hypotheses(false, true, true);
    EarlyXidCommitted(h);
    var db := Db(map[3 := OPEN_ID], map[1 := CLEARED_ROW, 3 := LATE_ROW], 4, 6);
    CanWait(h, 0, db, 31);
    assert OpenXids(db) == {db.open[3].xid};
    assert Xmin(db) == 5;
    TwoRowBatch(db, 31, 1, 3);
    ScanPasses(h, Store(31, db), [1, 3]);
    var n := State(31, db, Scan(3, map[0 := 0], map[], [1, 3]));
    assert 3 in n.db.open;
    assert Passed(n);
  }

  // ---------------------------------------------- between an ID and its xid

  /** Writer 1 draws its ID; writer 2, which began half a minute earlier, draws
      the next one and takes an xid first. */
  lemma LaterWriterFirst(h: Hypotheses)
    requires !h.instant
    ensures Reachable(h, Store(31, Db(map[1 := Drawn(31, 1, 3), 2 := Inserted(0, 3, 3, {}, 2, 3)], map[], 3, 4)))
  {
    BothDrawn(h);
    CanWriteRow(h, 31, Db(map[1 := Drawn(31, 1, 3), 2 := Drawn(0, 2, 3)], map[], 3, 3), 2);
  }

  lemma FirstDrawn(h: Hypotheses)
    ensures Reachable(h, Store(31, Db(map[1 := Drawn(31, 1, 3), 2 := Reading(0)], map[], 2, 3)))
  {
    CanStart(h);
    Extends(h, Store(0, START.db), BeginTx(2));
    var db := Db(map[2 := Reading(0)], map[], 1, 3);
    CanWait(h, 0, db, 31);
    CanDraw(h, 31, db, 1);
  }

  lemma BothDrawn(h: Hypotheses)
    requires !h.instant
    ensures Reachable(h, Store(31, Db(map[1 := Drawn(31, 1, 3), 2 := Drawn(0, 2, 3)], map[], 3, 3)))
  {
    FirstDrawn(h);
    CanDrawLater(h, 31, Db(map[1 := Drawn(31, 1, 3), 2 := Reading(0)], map[], 2, 3), 2);
  }

  /** So is the second: an ID that is drawn and whose xid is still to be taken
      is not seen by the xid test. */
  lemma InstantPassesAnOpenId()
    ensures exists m :: Reachable(Hypotheses(true, false, true), m) && Passed(m)
  {
    var h := Hypotheses(true, false, true);
    LaterWriterFirst(h);
    var before := Db(map[1 := Drawn(31, 1, 3), 2 := Inserted(0, 3, 3, {}, 2, 3)], map[], 3, 4);
    CanCommit(h, 31, before, 2);
    var db := Db(map[1 := Drawn(31, 1, 3)], map[2 := Row(3, 3, 3, 3, 0)], 3, 4);
    assert Commit(before, 2) == db;
    assert OpenXids(db) == {};
    assert Xmin(db) == 4;
    OneRowBatch(db, 31, 2);
    ScanPasses(h, Store(31, db), [2]);
    var n := State(31, db, Scan(2, map[0 := 0], map[], [2]));
    assert 1 in n.db.open;
    assert Passed(n);
  }

  // ------------------------------------------------------- the one-hour escape

  lemma FirstWriter(h: Hypotheses)
    ensures Reachable(h, Store(0, Db(map[1 := Inserted(0, 3, 2, {}, 1, 3)], map[], 2, 4)))
  {
    CanStart(h);
    CanDraw(h, 0, START.db, 1);
    CanWriteRow(h, 0, Db(map[1 := Drawn(0, 1, 3)], map[], 2, 3), 1);
  }

  /** Writer 2 comes after writer 1, */
  lemma SecondWriter(h: Hypotheses)
    ensures Reachable(h, Store(0, Db(map[1 := Inserted(0, 3, 2, {}, 1, 3), 2 := Inserted(0, 4, 3, {}, 2, 4)],
                                     map[], 3, 5)))
  {
    FirstWriter(h);
    var one := map[1 := Inserted(0, 3, 2, {}, 1, 3)];
    CanDraw(h, 0, Db(one, map[], 2, 4), 2);
    CanWriteRow(h, 0, Db(one[2 := Drawn(0, 2, 4)], map[], 3, 4), 2);
  }

  /** and commits first. */
  lemma LateCommit(h: Hypotheses)
    ensures Reachable(h, Store(0, Db(map[1 := Inserted(0, 3, 2, {}, 1, 3)], map[2 := Row(4, 3, 4, 4, 0)], 3, 5)))
  {
    SecondWriter(h);
    var db := Db(map[1 := Inserted(0, 3, 2, {}, 1, 3), 2 := Inserted(0, 4, 3, {}, 2, 4)], map[], 3, 5);
    CanCommit(h, 0, db, 2);
    assert Commit(db, 2) == Db(map[1 := Inserted(0, 3, 2, {}, 1, 3)], map[2 := Row(4, 3, 4, 4, 0)], 3, 5);
  }

  /** And so is the third: after an hour a row is fetched without the test, over a
      transaction that took both its ID and its xid before it. */
  lemma EscapePassesAnOpenId()
    ensures exists m :: Reachable(Hypotheses(true, true, false), m) && Passed(m)
  {
    var h := Hypotheses(true, true, false);
    LateCommit(h);
    var db := Db(map[1 := Inserted(0, 3, 2, {}, 1, 3)], map[2 := Row(4, 3, 4, 4, 0)], 3, 5);
    CanWait(h, 0, db, 3601);
    OneRowBatch(db, 3601, 2);
    ScanPasses(h, Store(3601, db), [2]);
    var n := State(3601, db, Scan(2, map[0 := 0], map[], [2]));
    assert 1 in n.db.open;
    assert Passed(n);
  }
}
