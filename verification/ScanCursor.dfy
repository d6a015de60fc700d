/** Why the scanner's cursor never passes a transcription that commits later
    (internal/database/unit_tag_suggestions.go:191-239 and 339-370, the writer
    in internal/database/transcriptions.go:164-242). Writers draw IDs from a
    sequence and commit in any order; a scanner reads the cursor, fetches the
    rows committed so far, and later moves the cursor by compare-and-swap.
    Every interleaving of these steps is a run of the state machine below. */
module ScanCursor {
  const HALF: int := 2147483648

  /** What a row or a snapshot shows of a transaction ID. */
  function Short(xid: nat): nat {
    xid % 4294967296
  }

  /** Not one of the special values. */
  predicate Normal(xid: nat) {
    Short(xid) >= FIRST_NORMAL
  }

  /** The first xid below which values are special (bootstrap, frozen). */
  const FIRST_NORMAL: nat := 3
  const FROZEN: nat := 2

  const SETTLE: int := 30
  const IN_DOUBT_WINDOW: int := 3600

  // ------------------------------------------------------- the settled test

  /** SQL's a % 2^32, which takes the sign of the dividend. */
  function SqlMod32(a: int): int {
    if a >= 0 then a % 4294967296 else -((-a) % 4294967296)
  }

  /** The row's xmin, as stored, precedes the snapshot's xmin. */
  predicate XidSettled(stored: nat, xmin32: nat) {
    stored < FIRST_NORMAL || SqlMod32(SqlMod32(stored - xmin32) + 4294967296) >= HALF
  }

  /** For any two full xids, the test on their truncations says whether the
      row's is in the half circle before the snapshot's. */
  lemma XidTestMeans(xid: nat, xmin: nat)
    requires Normal(xid)
    ensures XidSettled(Short(xid), Short(xmin)) <==> (xid - xmin) % 4294967296 >= HALF
  {
    var e := xid % 4294967296 - xmin % 4294967296;
    var m := xid / 4294967296 - xmin / 4294967296;
    assert xid - xmin == e + m * 4294967296;
    assert -4294967296 < e < 4294967296 && SqlMod32(e) == e;
    assert (xid - xmin) % 4294967296 == if e >= 0 then e else e + 4294967296;
  }

  /** The two lie within 2^31 of each other. */
  predicate Near(xid: nat, xmin: nat) {
    -HALF <= xid - xmin < HALF
  }

  /** Then it is the order of the full ones. */
  lemma XidTestIsExact(xid: nat, xmin: nat)
    requires Normal(xid) && Near(xid, xmin)
    ensures XidSettled(Short(xid), Short(xmin)) <==> xid < xmin
  {
    XidTestMeans(xid, xmin);
  }

  /** Beyond that distance it is wrong: a row 2^31 transactions ahead of the
      snapshot passes for settled. */
  lemma XidTestNeedsTheWindow(xmin: nat)
    requires Normal(xmin + HALF)
    ensures XidSettled(Short(xmin + HALF), Short(xmin)) && !(xmin + HALF < xmin)
  {
    XidTestMeans(xmin + HALF, xmin);
  }

  // ---------------------------------------------------------------- database

  /** An open transaction: before its first write; after one outside this table;
      after it has cleared the older rows `cleared`; between the draw of its ID
      and its xid; and once it has both and the row is written. `from` is the
      next ID there was when it took its xid, `next` the next xid there was when
      it drew its ID. */
  datatype Tx =
    | Reading(start: int)
    | Elsewhere(start: int, xid: nat, from: nat)
    | Writing(start: int, xid: nat, from: nat, cleared: set<nat>)
    | Drawn(start: int, id: nat, next: nat)
    | Inserted(start: int, xid: nat, from: nat, cleared: set<nat>, id: nat, next: nat)

  /** A committed transcription: the xid of its writer and of whoever wrote its
      last version, which is the one stored, truncated or frozen. created_at is
      the start of the writer's transaction. */
  datatype Row = Row(xid: nat, from: nat, last: nat, stored: nat, createdAt: int)

  datatype Db = Db(open: map<nat, Tx>, rows: map<nat, Row>, nextId: nat, nextXid: nat)

  predicate HasXid(t: Tx) {
    t.Elsewhere? || t.Writing? || t.Inserted?
  }

  predicate HasId(t: Tx) {
    t.Drawn? || t.Inserted?
  }

  /** Rows the transaction has cleared. */
  function ClearedBy(t: Tx): set<nat> {
    match t
    case Writing(_, _, _, cleared) => cleared
    case Inserted(_, _, _, cleared, _, _) => cleared
    case _ => {}
  }

  ghost function OpenXids(db: Db): set<nat> {
    set t <- db.open | HasXid(db.open[t]) :: db.open[t].xid
  }

  /** The least element of `xs` in [lo, hi), or `hi`. */
  ghost function Least(xs: set<nat>, lo: nat, hi: nat): (x: nat)
    requires lo <= hi
    ensures lo <= x <= hi && (x in xs || x == hi)
    ensures forall y <- xs :: lo <= y < hi ==> x <= y
    decreases hi - lo
  {
    if lo == hi || lo in xs then lo else Least(xs, lo + 1, hi)
  }

  /** pg_snapshot_xmin: the lowest xid still open, else the next one. */
  ghost function Xmin(db: Db): nat {
    Least(OpenXids(db), 0, db.nextXid)
  }

  /** Every open transaction with an xid started writing after `xid`. */
  ghost predicate BeforeAllOpen(db: Db, xid: nat) {
    xid < db.nextXid && forall t <- db.open :: HasXid(db.open[t]) ==> xid < db.open[t].xid
  }

  /** The xid after `x`; special values are skipped at every wraparound. */
  function NextNormal(x: nat): (n: nat)
    ensures n > x && Normal(n)
  {
    var n := x + 1;
    if Normal(n) then n else n + FIRST_NORMAL - Short(n)
  }

  /** A transaction's first write gives it an xid: a write outside this table, */
  function WriteElsewhere(db: Db, t: nat): Db
    requires t in db.open && db.open[t].Reading?
  {
    db.(open := db.open[t := Elsewhere(db.open[t].start, db.nextXid, db.nextId)], nextXid := NextNormal(db.nextXid))
  }

  /** or the update that clears older rows (transcriptions.go:178-185). */
  function Clear(db: Db, t: nat, cleared: set<nat>): Db
    requires t in db.open && db.open[t].Reading?
  {
    db.(open := db.open[t := Writing(db.open[t].start, db.nextXid, db.nextId, cleared)],
        nextXid := NextNormal(db.nextXid))
  }

  /** An insert draws the row's ID. After an earlier write that is all. */
  function Draw(db: Db, t: nat): Db
    requires t in db.open && (db.open[t].Reading? || db.open[t].Writing?)
  {
    var tx := db.open[t];
    db.(open := db.open[t := if tx.Reading? then Drawn(tx.start, db.nextId, db.nextXid)
                             else Inserted(tx.start, tx.xid, tx.from, tx.cleared, db.nextId, db.nextXid)],
        nextId := db.nextId + 1)
  }

  /** Otherwise it then takes an xid to write the row. */
  function WriteRow(db: Db, t: nat): Db
    requires t in db.open && db.open[t].Drawn?
  {
    var tx := db.open[t];
    db.(open := db.open[t := Inserted(tx.start, db.nextXid, db.nextId, {}, tx.id, tx.next)],
        nextXid := NextNormal(db.nextXid))
  }

  /** The last version of the rows a transaction cleared is its own. */
  function Rewritten(rows: map<nat, Row>, t: Tx): map<nat, Row> {
    map id <- rows :: if id in ClearedBy(t) && HasXid(t) then rows[id].(last := t.xid, stored := Short(t.xid))
                      else rows[id]
  }

  function Commit(db: Db, t: nat): Db
    requires t in db.open
  {
    var tx := db.open[t];
    var rows := Rewritten(db.rows, tx);
    db.(open := db.open - {t},
        rows := if tx.Inserted? then rows[tx.id := Row(tx.xid, tx.from, tx.xid, Short(tx.xid), tx.start)] else rows)
  }

  function Abort(db: Db, t: nat): Db {
    db.(open := db.open - {t})
  }

  function Freeze(db: Db, id: nat): Db
    requires id in db.rows
  {
    db.(rows := db.rows[id := db.rows[id].(stored := FROZEN)])
  }

  // ------------------------------------------------------------------- fetch

  /** The members of `ids` in [lo, hi), in order. */
  ghost function IdsIn(ids: set<nat>, lo: nat, hi: nat): seq<nat>
    decreases hi - lo
  {
    if lo >= hi then [] else (if lo in ids then [lo] else []) + IdsIn(ids, lo + 1, hi)
  }

  function Take(xs: seq<nat>, n: nat): seq<nat> {
    if n < |xs| then xs[..n] else xs
  }

  predicate Settled(r: Row, now: int, xmin: nat) {
    && r.createdAt < now - SETTLE
    && (r.createdAt < now - IN_DOUBT_WINDOW || XidSettled(r.stored, Short(xmin)))
  }

  /** The scanner keeps the leading run of settled rows. */
  ghost function SettledPrefix(db: Db, now: int, ids: seq<nat>): seq<nat> {
    if ids == [] || ids[0] !in db.rows || !Settled(db.rows[ids[0]], now, Xmin(db)) then []
    else [ids[0]] + SettledPrefix(db, now, ids[1..])
  }

  ghost function Batch(db: Db, now: int, after: nat, limit: nat): seq<nat> {
    SettledPrefix(db, now, Take(IdsIn(db.rows.Keys, after + 1, db.nextId), limit))
  }

  // ------------------------------------------------------------------- steps

  /** A batch between its fetch and its apply. */
  datatype Held = Held(fromId: nat, ids: seq<nat>)

  /** The cursor, the scanners' positions and batches, and, in `done`, the IDs
      of the applied batches in order. */
  datatype Scan = Scan(cursor: nat, reading: map<nat, nat>, held: map<nat, Held>, done: seq<nat>)

  datatype State = State(now: int, db: Db, scan: Scan)

  datatype Step =
    | Tick(seconds: nat)
    | BeginTx(tx: nat)
    | WriteTx(tx: nat)
    | ClearTx(tx: nat, found: set<nat>, cleared: set<nat>)
    | DrawTx(tx: nat)
    | RowTx(tx: nat)
    | CommitTx(tx: nat)
    | AbortTx(tx: nat)
    | FreezeRow(id: nat)
    | ReadCursor(scanner: nat)
    | Fetch(scanner: nat, limit: nat)
    | Apply(scanner: nat, refused: bool)

  const START: State := State(0, Db(map[], map[], 1, FIRST_NORMAL), Scan(0, map[], map[], []))

  ghost predicate Init(s: State) {
    s == START
  }

  /** An update takes an xid only when it finds a row. Of those it finds it
      clears the ones that still are primary once it has their locks. */
  ghost predicate Enabled(s: State, step: Step) {
    match step
    case Tick(_) => true
    case BeginTx(t) => t !in s.db.open
    case WriteTx(t) => t in s.db.open && s.db.open[t].Reading?
    case ClearTx(t, found, cleared) =>
      t in s.db.open && s.db.open[t].Reading? && found != {} && cleared <= found <= s.db.rows.Keys
    case DrawTx(t) => t in s.db.open && (s.db.open[t].Reading? || s.db.open[t].Writing?)
    case RowTx(t) => t in s.db.open && s.db.open[t].Drawn?
    case CommitTx(t) => t in s.db.open && !s.db.open[t].Drawn?
    case AbortTx(t) => t in s.db.open
    case FreezeRow(id) => id in s.db.rows && s.db.rows[id].last < Xmin(s.db)
    case ReadCursor(_) => true
    case Fetch(k, _) => k in s.scan.reading
    case Apply(k, _) => k in s.scan.held
  }

  ghost predicate DbStep(step: Step) {
    !step.Tick? && !step.ReadCursor? && !step.Fetch? && !step.Apply?
  }

  ghost function NextDb(s: State, step: Step): Db
    requires Enabled(s, step) && DbStep(step)
  {
    match step
    case BeginTx(t) => s.db.(open := s.db.open[t := Reading(s.now)])
    case WriteTx(t) => WriteElsewhere(s.db, t)
    case ClearTx(t, _, cleared) => Clear(s.db, t, cleared)
    case DrawTx(t) => Draw(s.db, t)
    case RowTx(t) => WriteRow(s.db, t)
    case CommitTx(t) => Commit(s.db, t)
    case AbortTx(t) => Abort(s.db, t)
    case FreezeRow(id) => Freeze(s.db, id)
  }

  /** The compare-and-swap; a batch naming a merged system is refused. */
  function Applied(c: Scan, k: nat, refused: bool): Scan
    requires k in c.held
  {
    var h := c.held[k];
    if refused || h.ids == [] || c.cursor != h.fromId then c.(held := c.held - {k})
    else Scan(h.ids[|h.ids| - 1], c.reading, c.held - {k}, c.done + h.ids)
  }

  ghost function Fetched(s: State, k: nat, limit: nat): Held
    requires k in s.scan.reading
  {
    Held(s.scan.reading[k], Batch(s.db, s.now, s.scan.reading[k], limit))
  }

  ghost function Next(s: State, step: Step): State
    requires Enabled(s, step)
  {
    match step
    case Tick(d) => s.(now := s.now + d)
    case ReadCursor(k) => s.(scan := s.scan.(reading := s.scan.reading[k := s.scan.cursor]))
    case Fetch(k, limit) => s.(scan := s.scan.(held := s.scan.held[k := Fetched(s, k, limit)]))
    case Apply(k, refused) => s.(scan := Applied(s.scan, k, refused))
    case _ => s.(db := NextDb(s, step))
  }

  /** The xids a fetch compares lie within 2^31 of each other, and no row came
      through the one-hour escape over an open transaction with an older xid. */
  ghost predicate Unescaped(db: Db, now: int, ids: seq<nat>) {
    forall id <- ids ::
      && id in db.rows
      && Near(db.rows[id].last, Xmin(db))
      && (db.rows[id].createdAt < now - IN_DOUBT_WINDOW ==> BeforeAllOpen(db, db.rows[id].xid))
  }

  /** What the protocol rests on: no transaction inserts after an earlier write;
      between the draw of an insert's ID and its xid no other ID is drawn and no
      other xid taken; fetched rows did not need the one-hour escape. */
  datatype Hypotheses = Hypotheses(clean: bool, instant: bool, unescaped: bool)

  const ALL := Hypotheses(true, true, true)

  /** Another transaction is between the draw of its ID and its xid. */
  ghost predicate OtherDrawn(db: Db, t: nat) {
    exists u <- db.open :: u != t && db.open[u].Drawn?
  }

  ghost predicate Guarded(s: State, step: Step, h: Hypotheses)
    requires Enabled(s, step)
  {
    && (h.clean && step.DrawTx? ==> s.db.open[step.tx].Reading?)
    && (h.instant && (step.WriteTx? || step.ClearTx? || step.DrawTx? || step.RowTx?) ==> !OtherDrawn(s.db, step.tx))
    && (h.unescaped && step.Fetch? ==> Unescaped(s.db, s.now, Fetched(s, step.scanner, step.limit).ids))
  }

  ghost predicate Runs(s: State, steps: seq<Step>)
    decreases |steps|, 0
  {
    steps == [] ||
    (Runs(s, steps[..|steps| - 1]) && Enabled(After(s, steps[..|steps| - 1]), steps[|steps| - 1]))
  }

  ghost function After(s: State, steps: seq<Step>): State
    requires Runs(s, steps)
    decreases |steps|, 1
  {
    if steps == [] then s else Next(After(s, steps[..|steps| - 1]), steps[|steps| - 1])
  }

  ghost predicate GuardedRun(s: State, steps: seq<Step>, h: Hypotheses)
    requires Runs(s, steps)
    decreases |steps|
  {
    steps == [] ||
    (GuardedRun(s, steps[..|steps| - 1], h) && Guarded(After(s, steps[..|steps| - 1]), steps[|steps| - 1], h))
  }

  // --------------------------------------------------------------- invariant

  ghost predicate TxOk(db: Db, t: Tx) {
    && (HasXid(t) ==> t.xid < db.nextXid && t.from <= db.nextId && Normal(t.xid))
    && (HasId(t) ==> 0 < t.id < db.nextId && t.next <= db.nextXid && t.id !in db.rows)
    && (HasXid(t) ==> forall id <- ClearedBy(t) :: id in db.rows && db.rows[id].xid < t.xid)
  }

  /** What a row stores is the xid of its last version, truncated, or the frozen
      mark; its last version is no older than itself. */
  ghost predicate RowOk(db: Db, id: nat, r: Row) {
    && 0 < id < db.nextId && r.xid <= r.last < db.nextXid && r.from <= db.nextId
    && Normal(r.last)
    && (r.stored == Short(r.last) || (r.stored == FROZEN && BeforeAllOpen(db, r.last)))
  }

  ghost predicate DbInv(db: Db) {
    && Normal(db.nextXid) && db.nextId > 0
    && (forall t <- db.open :: TxOk(db, db.open[t]))
    && (forall t <- db.open, u <- db.open ::
          HasId(db.open[t]) && HasId(db.open[u]) && db.open[t].id == db.open[u].id ==> t == u)
    && (forall id <- db.rows :: RowOk(db, id, db.rows[id]))
  }

  /** Whether `t` drew its ID before that xid was taken can be told from either
      counter. */
  ghost predicate InOrder(t: Tx, xid: nat, from: nat) {
    HasId(t) ==> (t.id < from <==> t.next <= xid)
  }

  ghost predicate HistoryInv(db: Db) {
    && (forall t <- db.open, u <- db.open ::
          HasXid(db.open[u]) ==> InOrder(db.open[t], db.open[u].xid, db.open[u].from))
    && (forall t <- db.open, id <- db.rows :: InOrder(db.open[t], db.rows[id].xid, db.rows[id].from))
    && XidsDistinct(db)
  }

  ghost predicate XidsDistinct(db: Db) {
    && (forall t <- db.open, u <- db.open ::
          HasXid(db.open[t]) && HasXid(db.open[u]) && db.open[t].xid == db.open[u].xid ==> t == u)
    && (forall t <- db.open, id <- db.rows :: HasXid(db.open[t]) ==> db.open[t].xid != db.rows[id].xid)
  }

  /** Every insert draws its ID and takes its xid at one moment. */
  ghost predicate TogetherInv(db: Db) {
    && (forall t <- db.open ::
          db.open[t].Inserted? ==> db.open[t].from == db.open[t].id + 1 && db.open[t].xid == db.open[t].next)
    && (forall t <- db.open :: db.open[t].Drawn? ==> db.open[t].id + 1 == db.nextId && db.open[t].next == db.nextXid)
    && (forall id <- db.rows :: db.rows[id].from == id + 1)
  }

  /** Nothing at or below `c` is still to come. */
  ghost predicate Closed(db: Db, c: nat) {
    c < db.nextId && forall t <- db.open :: HasId(db.open[t]) ==> db.open[t].id > c
  }

  ghost predicate HeldInv(db: Db, h: Held) {
    h.ids != [] ==>
      && h.fromId < h.ids[|h.ids| - 1]
      && Closed(db, h.ids[|h.ids| - 1])
      && h.ids == IdsIn(db.rows.Keys, h.fromId + 1, h.ids[|h.ids| - 1] + 1)
  }

  ghost predicate ScanInv(db: Db, c: Scan) {
    && Closed(db, c.cursor)
    && c.done == IdsIn(db.rows.Keys, 1, c.cursor + 1)
    && (forall k <- c.held :: HeldInv(db, c.held[k]))
  }

  ghost predicate Inv(s: State) {
    DbInv(s.db) && HistoryInv(s.db) && TogetherInv(s.db) && ScanInv(s.db, s.scan)
  }

  /** A settled row: older than the delay, and older than an hour or last written
      before every open transaction. */
  ghost predicate Ripe(db: Db, now: int, id: nat) {
    && id in db.rows && db.rows[id].createdAt < now - SETTLE
    && (db.rows[id].createdAt < now - IN_DOUBT_WINDOW || BeforeAllOpen(db, db.rows[id].last))
  }

  // ---------------------------------------- main results; their proofs below

  /** In every guarded run the applied batches, joined, are exactly the
      committed transcriptions up to the cursor, each once and in order, and
      no open transaction holds an ID the cursor has passed. */
  lemma CursorIsSafe(s: State, steps: seq<Step>)
    requires Init(s) && Runs(s, steps) && GuardedRun(s, steps, ALL)
    ensures var n := After(s, steps);
            && (forall id :: id in n.scan.done <==> 1 <= id <= n.scan.cursor && id in n.db.rows)
            && (forall i, j :: 0 <= i < j < |n.scan.done| ==> n.scan.done[i] < n.scan.done[j])
            && (forall t <- n.db.open :: HasId(n.db.open[t]) ==> n.db.open[t].id > n.scan.cursor)
  {
    RunKeepsInv(s, steps);
    var n := After(s, steps);
    IdsInMeans(n.db.rows.Keys, 1, n.scan.cursor + 1);
  }

  /** Whatever happens after a guarded run, guarded or not: a transcription that
      is ever committed with an ID the cursor had passed had been applied. */
  lemma NothingCommitsBehindTheCursor(s: State, steps: seq<Step>, more: seq<Step>, id: nat)
    requires Init(s) && Runs(s, steps) && GuardedRun(s, steps, ALL) && Runs(After(s, steps), more)
    requires 0 < id <= After(s, steps).scan.cursor && id in After(After(s, steps), more).db.rows
    ensures id in After(s, steps).scan.done
  {
    RunKeepsInv(s, steps);
    CursorIsSafe(s, steps);
    ClosedLastsForever(After(s, steps), more, After(s, steps).scan.cursor);
  }

  lemma StepKeepsInv(s: State, step: Step)
    requires Inv(s) && Enabled(s, step) && Guarded(s, step, ALL)
    ensures Inv(Next(s, step))
  {
    if DbStep(step) {
      DbStepKeepsDb(s, step);
      DbStepKeepsHistory(s, step);
      DbStepKeepsTogether(s, step, ALL);
      DbStepKeepsScan(s, step);
    } else if step.Fetch? {
      FetchIsHeld(s, step.scanner, step.limit);
    } else if step.Apply? {
      ApplyKeepsScan(s.db, s.scan, step.scanner, step.refused);
    }
  }

  /** The heart of the protocol: below a row that a fetch takes no ID is still to
      come. */
  lemma FetchedRowIsClosed(db: Db, now: int, after: nat, limit: nat, id: nat)
    requires DbInv(db) && HistoryInv(db) && TogetherInv(db)
    requires Unescaped(db, now, Batch(db, now, after, limit)) && id in Batch(db, now, after, limit)
    ensures Closed(db, id)
  {
    FetchedRowIsOld(db, now, after, limit, id);
    assert RowOk(db, id, db.rows[id]);
    forall t <- db.open | HasId(db.open[t])
      ensures db.open[t].id > id
    {
      assert TxOk(db, db.open[t]);
    }
  }

  /** What a fetch takes: the committed rows after its position, each as long as
      there is room and it and all before it are ripe. */
  lemma BatchTakesIff(db: Db, now: int, after: nat, limit: nat, id: nat)
    requires DbInv(db) && after < id && id in db.rows
    requires forall k <- db.rows :: Near(db.rows[k].last, Xmin(db))
    ensures id in Batch(db, now, after, limit) <==>
            |IdsIn(db.rows.Keys, after + 1, id)| < limit
            && forall k <- db.rows | after < k <= id :: Ripe(db, now, k)
  {
    var all, n := RowsAfter(db, after), |IdsIn(db.rows.Keys, after + 1, id)|;
    RowsAfterMean(db, after, id);
    TakenUpTo(db, now, all, limit, id, n);
    RipeUpTo(db, now, after, id, all, n);
  }

  /** The first row a batch with room leaves out is younger than the settle delay,
      or at most an hour old, not frozen, and not older than some open xid. */
  lemma BatchStopsAt(steps: seq<Step>, after: nat, limit: nat, id: nat)
    requires Runs(START, steps) && after < id && id in After(START, steps).db.rows
    requires var db := After(START, steps).db;
             forall k <- db.rows :: Near(db.rows[k].last, Xmin(db))
    requires var m := After(START, steps);
             && id !in Batch(m.db, m.now, after, limit) && |Batch(m.db, m.now, after, limit)| < limit
             && forall k <- m.db.rows | after < k < id :: k in Batch(m.db, m.now, after, limit)
    ensures var m := After(START, steps);
            var r := m.db.rows[id];
            || r.createdAt >= m.now - SETTLE
            || (r.createdAt >= m.now - IN_DOUBT_WINDOW && r.stored == Short(r.last)
                && exists t <- m.db.open :: HasXid(m.db.open[t]) && m.db.open[t].xid <= r.last)
  {
    RunKeepsHistory(steps);
    var m := After(START, steps);
    var ids, before := Batch(m.db, m.now, after, limit), IdsIn(m.db.rows.Keys, after + 1, id);
    IdsInMeans(m.db.rows.Keys, after + 1, id);
    BatchTakesIff(m.db, m.now, after, limit, id);
    forall k <- m.db.rows | after < k < id
      ensures Ripe(m.db, m.now, k)
    {
      BatchTakesIff(m.db, m.now, after, limit, k);
    }
    DistinctMembers(before, ids);
    assert !Ripe(m.db, m.now, id);
    assert RowOk(m.db, id, m.db.rows[id]);
  }

  /** In every run, guarded or not. */
  lemma {:induction false} RunKeepsHistory(steps: seq<Step>)
    requires Runs(START, steps)
    ensures DbInv(After(START, steps).db) && HistoryInv(After(START, steps).db)
    decreases |steps|
  {
    if steps != [] {
      var front, step := steps[..|steps| - 1], steps[|steps| - 1];
      RunKeepsHistory(front);
      if DbStep(step) {
        DbStepKeepsDb(After(START, front), step);
        DbStepKeepsHistory(After(START, front), step);
      }
    }
  }

  /** The xid test, for a row within 2^31 of the snapshot: it passes if and only
      if whoever wrote the row's last version took its xid before every open
      transaction. */
  lemma XidTestMeansOld(db: Db, id: nat)
    requires DbInv(db) && id in db.rows && Near(db.rows[id].last, Xmin(db))
    ensures XidSettled(db.rows[id].stored, Short(Xmin(db))) <==> BeforeAllOpen(db, db.rows[id].last)
  {
    var r := db.rows[id];
    assert RowOk(db, id, r);
    if r.stored == Short(r.last) {
      XidTestIsExact(r.last, Xmin(db));
      if r.last < Xmin(db) {
        XminIsBeforeAllOpen(db, r.last);
      } else if BeforeAllOpen(db, r.last) {
        assert Xmin(db) in OpenXids(db);
      }
    }
  }

  /** The rows of a batch are exactly the committed rows between the position
      it was read at and its last row, at most `limit`, all settled. */
  lemma BatchMeans(db: Db, now: int, after: nat, limit: nat)
    ensures var ids := Batch(db, now, after, limit);
            && |ids| <= limit
            && (forall id <- ids :: id in db.rows && Settled(db.rows[id], now, Xmin(db)))
            && (ids != [] ==> after < ids[|ids| - 1] < db.nextId
                              && ids == IdsIn(db.rows.Keys, after + 1, ids[|ids| - 1] + 1))
  {
    var all := IdsIn(db.rows.Keys, after + 1, db.nextId);
    SettledPrefixMeans(db, now, Take(all, limit));
    var ids := Batch(db, now, after, limit);
    if ids != [] {
      assert ids <= all;
      PrefixIsInterval(db.rows.Keys, after + 1, db.nextId, ids);
    }
  }

  lemma {:induction false} SettledPrefixMeans(db: Db, now: int, ids: seq<nat>)
    ensures var p := SettledPrefix(db, now, ids);
            && p <= ids
            && (forall id <- p :: id in db.rows && Settled(db.rows[id], now, Xmin(db)))
            && (|p| < |ids| && ids[|p|] in db.rows ==> !Settled(db.rows[ids[|p|]], now, Xmin(db)))
  {
    if ids != [] && ids[0] in db.rows && Settled(db.rows[ids[0]], now, Xmin(db)) {
      SettledPrefixMeans(db, now, ids[1..]);
      assert ids == [ids[0]] + ids[1..];
    }
  }

  // ------------------------------------------------------- what a fetch keeps

  lemma {:induction false} IdsInMembers(ids: set<nat>, lo: nat, hi: nat)
    ensures forall id :: id in IdsIn(ids, lo, hi) <==> lo <= id < hi && id in ids
    decreases hi - lo
  {
    if lo < hi {
      IdsInMembers(ids, lo + 1, hi);
    }
  }

  lemma {:induction false} IdsInAscend(ids: set<nat>, lo: nat, hi: nat)
    ensures forall i, j :: 0 <= i < j < |IdsIn(ids, lo, hi)| ==> IdsIn(ids, lo, hi)[i] < IdsIn(ids, lo, hi)[j]
    decreases hi - lo
  {
    if lo < hi {
      IdsInAscend(ids, lo + 1, hi);
      IdsInMembers(ids, lo + 1, hi);
      var tail := IdsIn(ids, lo + 1, hi);
      assert forall k :: 0 <= k < |tail| ==> tail[k] in tail;
    }
  }

  lemma IdsInMeans(ids: set<nat>, lo: nat, hi: nat)
    ensures forall id :: id in IdsIn(ids, lo, hi) <==> lo <= id < hi && id in ids
    ensures forall i, j :: 0 <= i < j < |IdsIn(ids, lo, hi)| ==> IdsIn(ids, lo, hi)[i] < IdsIn(ids, lo, hi)[j]
  {
    IdsInMembers(ids, lo, hi);
    IdsInAscend(ids, lo, hi);
  }

  lemma {:induction false} IdsInSplit(ids: set<nat>, lo: nat, mid: nat, hi: nat)
    requires lo <= mid <= hi
    ensures IdsIn(ids, lo, hi) == IdsIn(ids, lo, mid) + IdsIn(ids, mid, hi)
    decreases mid - lo
  {
    if lo < mid {
      IdsInSplit(ids, lo + 1, mid, hi);
    }
  }

  lemma {:induction false} IdsInSame(ids: set<nat>, ids': set<nat>, lo: nat, hi: nat)
    requires forall id :: lo <= id < hi ==> (id in ids <==> id in ids')
    ensures IdsIn(ids, lo, hi) == IdsIn(ids', lo, hi)
    decreases hi - lo
  {
    if lo < hi {
      IdsInSame(ids, ids', lo + 1, hi);
    }
  }

  /** A prefix of the members above `lo` is all of them up to its end. */
  lemma PrefixIsInterval(ids: set<nat>, lo: nat, hi: nat, p: seq<nat>)
    requires p != [] && p <= IdsIn(ids, lo, hi)
    ensures lo <= p[|p| - 1] < hi
    ensures p == IdsIn(ids, lo, p[|p| - 1] + 1)
  {
    IdsInMeans(ids, lo, hi);
    var to, all := p[|p| - 1], IdsIn(ids, lo, hi);
    assert all[|p| - 1] == to && to in all;
    IdsInSplit(ids, lo, to + 1, hi);
    IdsInMeans(ids, lo, to + 1);
    var front := IdsIn(ids, lo, to + 1);
    assert to in front;
    var k :| 0 <= k < |front| && front[k] == to;
    assert all[k] == to;
    assert front[|front| - 1] in front;
    assert |front| == |p|;
  }

  lemma XminIsBeforeAllOpen(db: Db, xid: nat)
    requires DbInv(db) && xid < Xmin(db)
    ensures BeforeAllOpen(db, xid)
  {
    forall t <- db.open | HasXid(db.open[t])
      ensures xid < db.open[t].xid
    {
      assert TxOk(db, db.open[t]) && db.open[t].xid in OpenXids(db);
    }
  }

  lemma SettledIffRipe(db: Db, now: int, id: nat)
    requires DbInv(db) && id in db.rows && Near(db.rows[id].last, Xmin(db))
    ensures Settled(db.rows[id], now, Xmin(db)) <==> Ripe(db, now, id)
  {
    XidTestMeansOld(db, id);
  }

  /** Where a row is among those after a position. */
  lemma PlaceOf(ids: set<nat>, lo: nat, id: nat, hi: nat)
    requires id in ids && lo <= id < hi
    ensures var all, n := IdsIn(ids, lo, hi), |IdsIn(ids, lo, id)|;
            && n < |all| && all[n] == id && all[..n] == IdsIn(ids, lo, id)
            && forall k :: 0 <= k < |all| ==> (all[k] == id <==> k == n) && (k <= n <==> all[k] <= id)
  {
    IdsInSplit(ids, lo, id, hi);
    IdsInAscend(ids, lo, hi);
  }

  lemma PrefixTakesIff(db: Db, now: int, ids: seq<nat>, n: nat)
    requires n < |ids| && forall k <- ids :: k in db.rows
    ensures n < |SettledPrefix(db, now, ids)| <==>
            forall k :: 0 <= k <= n ==> Settled(db.rows[ids[k]], now, Xmin(db))
  {
    SettledPrefixMeans(db, now, ids);
    var p := SettledPrefix(db, now, ids);
    assert forall k :: 0 <= k < |p| ==> p[k] == ids[k] && p[k] in p;
    assert |p| < |ids| ==> ids[|p|] in ids;
  }

  /** All rows up to place `n` are settled if and only if all up to that ID are
      ripe. */
  lemma RipeUpTo(db: Db, now: int, after: nat, id: nat, all: seq<nat>, n: nat)
    requires DbInv(db) && forall k <- db.rows :: Near(db.rows[k].last, Xmin(db))
    requires n < |all| && all[n] == id && forall k :: k in all <==> after < k && k in db.rows
    requires forall k :: 0 <= k < |all| ==> (k <= n <==> all[k] <= id)
    ensures (forall k :: 0 <= k <= n ==> Settled(db.rows[all[k]], now, Xmin(db))) <==>
            (forall k <- db.rows | after < k <= id :: Ripe(db, now, k))
  {
    forall k: nat | k < |all|
      ensures Settled(db.rows[all[k]], now, Xmin(db)) <==> Ripe(db, now, all[k])
    {
      assert all[k] in all;
      SettledIffRipe(db, now, all[k]);
    }
    forall k <- db.rows | after < k <= id
      ensures exists m :: 0 <= m <= n && all[m] == k
    {
      assert k in all;
    }
    assert forall k: nat | k <= n :: all[k] in all;
  }

  lemma TakenUpTo(db: Db, now: int, all: seq<nat>, limit: nat, id: nat, n: nat)
    requires n < |all| && forall k <- all :: k in db.rows
    requires forall k :: 0 <= k < |all| ==> (all[k] == id <==> k == n)
    ensures id in SettledPrefix(db, now, Take(all, limit)) <==>
            n < limit && forall k :: 0 <= k <= n ==> Settled(db.rows[all[k]], now, Xmin(db))
  {
    var some := Take(all, limit);
    BatchPlace(db, now, some, id, n);
    SettledPrefixMeans(db, now, some);
    if n < limit {
      assert forall k <- some :: k in all;
      PrefixTakesIff(db, now, some, n);
      assert forall k :: 0 <= k <= n ==> some[k] == all[k];
    }
  }

  ghost function RowsAfter(db: Db, after: nat): seq<nat> {
    IdsIn(db.rows.Keys, after + 1, db.nextId)
  }

  lemma RowsAfterMean(db: Db, after: nat, id: nat)
    requires DbInv(db) && after < id && id in db.rows
    ensures var all, n := RowsAfter(db, after), |IdsIn(db.rows.Keys, after + 1, id)|;
            && n < |all| && all[n] == id && (forall k :: k in all <==> after < k && k in db.rows)
            && (forall k :: 0 <= k < |all| ==> (all[k] == id <==> k == n) && (k <= n <==> all[k] <= id))
  {
    assert forall k <- db.rows :: RowOk(db, k, db.rows[k]);
    PlaceOf(db.rows.Keys, after + 1, id, db.nextId);
    IdsInMembers(db.rows.Keys, after + 1, db.nextId);
  }

  /** A row is taken if its place is in the prefix. */
  lemma BatchPlace(db: Db, now: int, ids: seq<nat>, id: nat, n: nat)
    requires forall k :: 0 <= k < |ids| ==> (ids[k] == id <==> k == n)
    ensures id in SettledPrefix(db, now, ids) <==> n < |SettledPrefix(db, now, ids)|
  {
    SettledPrefixMeans(db, now, ids);
    var p := SettledPrefix(db, now, ids);
    assert forall k :: 0 <= k < |p| ==> p[k] == ids[k];
    assert n < |p| ==> p[n] == id;
  }

  /** A list without repetitions whose members are in another is no longer. */
  lemma {:induction false} DistinctMembers(xs: seq<nat>, ys: seq<nat>)
    requires forall i, j :: 0 <= i < j < |xs| ==> xs[i] < xs[j]
    requires forall x <- xs :: x in ys
    ensures |xs| <= |ys|
    decreases |xs|
  {
    if xs != [] {
      var front, last := xs[..|xs| - 1], xs[|xs| - 1];
      assert last in xs;
      var k :| 0 <= k < |ys| && ys[k] == last;
      var rest := ys[..k] + ys[k + 1..];
      forall x <- front
        ensures x in rest
      {
        assert x in xs && x != last;
        var i :| 0 <= i < |ys| && ys[i] == x;
        assert if i < k then rest[i] == x else rest[i - 1] == x;
      }
      DistinctMembers(front, rest);
    }
  }

  /** A row of a batch was written before every open transaction took its xid. */
  lemma FetchedRowIsOld(db: Db, now: int, after: nat, limit: nat, id: nat)
    requires DbInv(db) && Unescaped(db, now, Batch(db, now, after, limit)) && id in Batch(db, now, after, limit)
    ensures id in db.rows && BeforeAllOpen(db, db.rows[id].xid)
  {
    BatchMeans(db, now, after, limit);
    assert RowOk(db, id, db.rows[id]);
    XidTestMeansOld(db, id);
  }

  // ---------------------------------------------------------- preservation

  /** What a database step does to the transactions and rows. */
  lemma DbStepMeans(s: State, step: Step)
    requires Enabled(s, step) && DbStep(step) && DbInv(s.db)
    ensures var n := NextDb(s, step);
            && n.nextId >= s.db.nextId && n.nextXid >= s.db.nextXid
            && (forall t <- n.open :: HasXid(n.open[t]) ==>
                  || (t in s.db.open && HasXid(s.db.open[t]) && n.open[t].xid == s.db.open[t].xid)
                  || n.open[t].xid == s.db.nextXid)
            && (forall t <- n.open :: HasId(n.open[t]) ==>
                  || (t in s.db.open && HasId(s.db.open[t]) && n.open[t].id == s.db.open[t].id)
                  || n.open[t].id == s.db.nextId)
            && (forall id <- n.rows ::
                  id in s.db.rows || exists t <- s.db.open :: s.db.open[t].Inserted? && s.db.open[t].id == id)
            && s.db.rows.Keys <= n.rows.Keys
            && (forall id <- s.db.rows :: n.rows[id].xid == s.db.rows[id].xid && n.rows[id].from == s.db.rows[id].from)
  {
    assert forall t <- s.db.open :: TxOk(s.db, s.db.open[t]);
  }

  lemma DbStepKeepsClosed(s: State, step: Step, c: nat)
    requires Enabled(s, step) && DbStep(step) && DbInv(s.db) && Closed(s.db, c)
    ensures Closed(NextDb(s, step), c)
    ensures forall id :: id <= c ==> (id in NextDb(s, step).rows <==> id in s.db.rows)
  {
    DbStepMeans(s, step);
  }

  lemma BeforeAllOpenLasts(s: State, step: Step, xid: nat)
    requires Enabled(s, step) && DbStep(step) && DbInv(s.db) && BeforeAllOpen(s.db, xid)
    ensures BeforeAllOpen(NextDb(s, step), xid)
  {
    DbStepMeans(s, step);
  }

  lemma OldRowsStayOk(s: State, step: Step, id: nat)
    requires Enabled(s, step) && DbStep(step) && DbInv(s.db) && id in s.db.rows
    ensures RowOk(NextDb(s, step), id, s.db.rows[id])
  {
    assert RowOk(s.db, id, s.db.rows[id]);
    DbStepMeans(s, step);
    if BeforeAllOpen(s.db, s.db.rows[id].last) {
      BeforeAllOpenLasts(s, step, s.db.rows[id].last);
    }
  }

  lemma DbStepKeepsRows(s: State, step: Step, id: nat)
    requires Enabled(s, step) && DbStep(step) && DbInv(s.db) && id in NextDb(s, step).rows
    ensures RowOk(NextDb(s, step), id, NextDb(s, step).rows[id])
  {
    if id in s.db.rows {
      OldRowsStayOk(s, step, id);
    }
    if step.CommitTx? {
      assert TxOk(s.db, s.db.open[step.tx]);
    } else if step.FreezeRow? && id == step.id {
      XminIsBeforeAllOpen(s.db, s.db.rows[id].last);
    }
  }

  lemma DbStepKeepsTxs(s: State, step: Step, t: nat)
    requires Enabled(s, step) && DbStep(step) && DbInv(s.db) && t in NextDb(s, step).open
    ensures TxOk(NextDb(s, step), NextDb(s, step).open[t])
  {
    DbStepMeans(s, step);
    assert forall id <- s.db.rows :: RowOk(s.db, id, s.db.rows[id]);
    if t in s.db.open {
      assert TxOk(s.db, s.db.open[t]);
    }
  }

  lemma DbStepKeepsIds(s: State, step: Step)
    requires Enabled(s, step) && DbStep(step) && DbInv(s.db)
    ensures var n := NextDb(s, step);
            && Normal(n.nextXid)
            && (forall t <- n.open, u <- n.open ::
                  HasId(n.open[t]) && HasId(n.open[u]) && n.open[t].id == n.open[u].id ==> t == u)
  {
    assert forall t <- s.db.open :: TxOk(s.db, s.db.open[t]);
  }

  lemma DbStepKeepsDb(s: State, step: Step)
    requires Enabled(s, step) && DbStep(step) && DbInv(s.db)
    ensures DbInv(NextDb(s, step))
  {
    var n := NextDb(s, step);
    DbStepMeans(s, step);
    DbStepKeepsIds(s, step);
    forall t <- n.open
      ensures TxOk(n, n.open[t])
    {
      DbStepKeepsTxs(s, step, t);
    }
    forall id <- n.rows
      ensures RowOk(n, id, n.rows[id])
    {
      DbStepKeepsRows(s, step, id);
    }
  }

  /** What a step does to one transaction: its ID and its xid are the ones it had,
      or new, and no step gives both. */
  lemma DbStepTraces(s: State, step: Step, t: nat)
    requires Enabled(s, step) && DbStep(step) && t in NextDb(s, step).open
    ensures var tx := NextDb(s, step).open[t];
            && (HasId(tx) ==>
                  || (t in s.db.open && HasId(s.db.open[t]) && tx.id == s.db.open[t].id && tx.next == s.db.open[t].next)
                  || (step.DrawTx? && tx.id == s.db.nextId && tx.next == s.db.nextXid))
            && (HasXid(tx) ==>
                  || (t in s.db.open && HasXid(s.db.open[t]) && tx.xid == s.db.open[t].xid &&
                      tx.from == s.db.open[t].from)
                  || (!step.DrawTx? && t == step.tx && tx.xid == s.db.nextXid && tx.from == s.db.nextId))
  {
  }

  /** And to one row: it is the row it was, or that of a transaction that ended. */
  lemma DbStepTracesRow(s: State, step: Step, id: nat) returns (t: nat)
    requires Enabled(s, step) && DbStep(step) && DbInv(s.db) && id in NextDb(s, step).rows
    ensures var r := NextDb(s, step).rows[id];
            || (id in s.db.rows && r.xid == s.db.rows[id].xid && r.from == s.db.rows[id].from)
            || (t in s.db.open && t !in NextDb(s, step).open && HasXid(s.db.open[t])
                && r.xid == s.db.open[t].xid && r.from == s.db.open[t].from)
  {
    t := if step.CommitTx? then step.tx else 0;
  }

  lemma DbStepKeepsInOrder(s: State, step: Step, t: nat, xid: nat, from: nat)
    requires Enabled(s, step) && DbStep(step) && t in NextDb(s, step).open
    requires from <= s.db.nextId && xid < s.db.nextXid
    requires t in s.db.open ==> InOrder(s.db.open[t], xid, from)
    ensures InOrder(NextDb(s, step).open[t], xid, from)
  {
    DbStepTraces(s, step, t);
  }

  lemma DbStepKeepsXids(s: State, step: Step)
    requires Enabled(s, step) && DbStep(step) && DbInv(s.db) && XidsDistinct(s.db)
    ensures XidsDistinct(NextDb(s, step))
  {
    var n := NextDb(s, step);
    forall t <- n.open
      ensures HasXid(n.open[t]) ==>
                || (t in s.db.open && HasXid(s.db.open[t]) && n.open[t].xid == s.db.open[t].xid < s.db.nextXid)
                || (!step.DrawTx? && t == step.tx && n.open[t].xid == s.db.nextXid)
    {
      DbStepTraces(s, step, t);
      assert t in s.db.open ==> TxOk(s.db, s.db.open[t]);
    }
    forall t <- n.open, id <- n.rows | HasXid(n.open[t])
      ensures n.open[t].xid != n.rows[id].xid
    {
      var u := DbStepTracesRow(s, step, id);
      assert id in s.db.rows ==> RowOk(s.db, id, s.db.rows[id]);
      assert u in s.db.open ==> TxOk(s.db, s.db.open[u]);
    }
  }

  lemma DbStepKeepsHistory(s: State, step: Step)
    requires Enabled(s, step) && DbStep(step) && DbInv(s.db) && HistoryInv(s.db)
    ensures HistoryInv(NextDb(s, step))
  {
    var n := NextDb(s, step);
    forall t <- n.open, u <- n.open | HasXid(n.open[u])
      ensures InOrder(n.open[t], n.open[u].xid, n.open[u].from)
    {
      DbStepTraces(s, step, u);
      if u in s.db.open && HasXid(s.db.open[u]) {
        assert TxOk(s.db, s.db.open[u]);
        DbStepKeepsInOrder(s, step, t, n.open[u].xid, n.open[u].from);
      } else {
        DbStepTraces(s, step, t);
        assert t in s.db.open ==> TxOk(s.db, s.db.open[t]);
      }
    }
    forall t <- n.open, id <- n.rows
      ensures InOrder(n.open[t], n.rows[id].xid, n.rows[id].from)
    {
      var u := DbStepTracesRow(s, step, id);
      assert id in s.db.rows ==> RowOk(s.db, id, s.db.rows[id]);
      assert u in s.db.open ==> TxOk(s.db, s.db.open[u]);
      DbStepKeepsInOrder(s, step, t, n.rows[id].xid, n.rows[id].from);
    }
    DbStepKeepsXids(s, step);
  }

  lemma DbStepKeepsTogether(s: State, step: Step, h: Hypotheses)
    requires Enabled(s, step) && DbStep(step) && DbInv(s.db) && TogetherInv(s.db)
    requires h.clean && h.instant && Guarded(s, step, h)
    ensures TogetherInv(NextDb(s, step))
  {
    assert forall t <- s.db.open :: TxOk(s.db, s.db.open[t]);
  }

  lemma DbStepKeepsScan(s: State, step: Step)
    requires Enabled(s, step) && DbStep(step) && DbInv(s.db) && ScanInv(s.db, s.scan)
    ensures ScanInv(NextDb(s, step), s.scan)
  {
    var n := NextDb(s, step);
    DbStepKeepsClosed(s, step, s.scan.cursor);
    IdsInSame(s.db.rows.Keys, n.rows.Keys, 1, s.scan.cursor + 1);
    forall k <- s.scan.held
      ensures HeldInv(n, s.scan.held[k])
    {
      var h := s.scan.held[k];
      assert HeldInv(s.db, h);
      if h.ids != [] {
        var to := h.ids[|h.ids| - 1];
        DbStepKeepsClosed(s, step, to);
        IdsInSame(s.db.rows.Keys, n.rows.Keys, h.fromId + 1, to + 1);
      }
    }
  }

  lemma BatchEndsClosed(db: Db, now: int, after: nat, limit: nat)
    requires DbInv(db) && HistoryInv(db) && TogetherInv(db) && Unescaped(db, now, Batch(db, now, after, limit))
    requires Batch(db, now, after, limit) != []
    ensures Closed(db, Batch(db, now, after, limit)[|Batch(db, now, after, limit)| - 1])
  {
    var ids := Batch(db, now, after, limit);
    assert ids[|ids| - 1] in ids;
    FetchedRowIsClosed(db, now, after, limit, ids[|ids| - 1]);
  }

  lemma FetchIsHeld(s: State, k: nat, limit: nat)
    requires DbInv(s.db) && HistoryInv(s.db) && TogetherInv(s.db) && k in s.scan.reading
    requires Unescaped(s.db, s.now, Fetched(s, k, limit).ids)
    ensures HeldInv(s.db, Fetched(s, k, limit))
  {
    BatchMeans(s.db, s.now, s.scan.reading[k], limit);
    if Fetched(s, k, limit).ids != [] {
      BatchEndsClosed(s.db, s.now, s.scan.reading[k], limit);
    }
  }

  lemma ApplyKeepsScan(db: Db, c: Scan, k: nat, refused: bool)
    requires ScanInv(db, c) && k in c.held
    ensures ScanInv(db, Applied(c, k, refused))
  {
    var n, h := Applied(c, k, refused), c.held[k];
    assert HeldInv(db, h);
    if n.cursor != c.cursor {
      IdsInSplit(db.rows.Keys, 1, h.fromId + 1, n.cursor + 1);
    }
  }

  lemma {:induction false} RunKeepsInv(s: State, steps: seq<Step>)
    requires Init(s) && Runs(s, steps) && GuardedRun(s, steps, ALL)
    ensures Inv(After(s, steps))
    decreases |steps|
  {
    if steps != [] {
      RunKeepsInv(s, steps[..|steps| - 1]);
      StepKeepsInv(After(s, steps[..|steps| - 1]), steps[|steps| - 1]);
    }
  }

  /** In every run whose inserts take ID and xid together, whatever is fetched. */
  lemma {:induction false} RunKeepsTogether(steps: seq<Step>, h: Hypotheses)
    requires h.clean && h.instant && Runs(START, steps) && GuardedRun(START, steps, h)
    ensures DbInv(After(START, steps).db) && HistoryInv(After(START, steps).db) && TogetherInv(After(START, steps).db)
    decreases |steps|
  {
    if steps != [] {
      var front, step := steps[..|steps| - 1], steps[|steps| - 1];
      RunKeepsTogether(front, h);
      if DbStep(step) {
        DbStepKeepsDb(After(START, front), step);
        DbStepKeepsHistory(After(START, front), step);
        DbStepKeepsTogether(After(START, front), step, h);
      }
    }
  }

  lemma {:induction false} ClosedLastsForever(s: State, more: seq<Step>, c: nat)
    requires DbInv(s.db) && Closed(s.db, c) && Runs(s, more)
    ensures DbInv(After(s, more).db) && Closed(After(s, more).db, c)
    ensures forall id :: id <= c ==> (id in After(s, more).db.rows <==> id in s.db.rows)
    decreases |more|
  {
    if more != [] {
      var front, step := more[..|more| - 1], more[|more| - 1];
      ClosedLastsForever(s, front, c);
      var m := After(s, front);
      if DbStep(step) {
        DbStepKeepsClosed(m, step, c);
        DbStepKeepsDb(m, step);
      }
    }
  }
}
