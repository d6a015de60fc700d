/** Transactions that store transcriptions, statement by statement and in any
    interleaving (internal/database/transcriptions.go:169-242). Under read
    committed a statement sees what had committed when it began, so a clear
    misses the row another transaction is about to commit. Row locks, which only
    make one clear wait for another transaction to end, are left out: the runs
    below include all that the locks allow. */
module OverlappingStores {
  import opened Transcriptions

  /** A transaction: begun; having cleared the primary rows it saw, when `seen`
      primary rows had been committed; having inserted its row. */
  datatype Tx =
    | Begun(row: Transcription)
    | Cleared(row: Transcription, cleared: set<nat>, seen: nat)
    | Inserted(row: Transcription, cleared: set<nat>, seen: nat, id: nat)

  /** A committed primary row, and how many had been committed at its clear. */
  datatype Committed = Committed(id: nat, call: CallKey, seen: nat)

  datatype State = State(ts: map<nat, Transcription>, nextId: nat, open: map<nat, Tx>, log: seq<Committed>)

  datatype Step =
    | Begin(tx: nat, row: Transcription)
    | Clear(tx: nat)
    | Insert(tx: nat)
    | Commit(tx: nat)
    | Abort(tx: nat)

  const EMPTY: State := State(map[], 1, map[], [])

  predicate Enabled(s: State, step: Step) {
    match step
    case Begin(t, _) => t !in s.open
    case Clear(t) => t in s.open && s.open[t].Begun? && s.open[t].row.primary
    case Insert(t) => t in s.open && (s.open[t].Cleared? || (s.open[t].Begun? && !s.open[t].row.primary))
    case Commit(t) => t in s.open && s.open[t].Inserted?
    case Abort(t) => t in s.open
  }

  function AfterClear(s: State, t: nat): State
    requires Enabled(s, Clear(t))
  {
    var row := s.open[t].row;
    s.(open := s.open[t := Cleared(row, PrimariesOf(s.ts, row.call), |s.log|)])
  }

  function AfterInsert(s: State, t: nat): State
    requires Enabled(s, Insert(t))
  {
    var tx := s.open[t];
    var cleared, seen := if tx.Cleared? then tx.cleared else {}, if tx.Cleared? then tx.seen else 0;
    s.(open := s.open[t := Inserted(tx.row, cleared, seen, s.nextId)],
       nextId := s.nextId + 1)
  }

  function AfterCommit(s: State, t: nat): State
    requires Enabled(s, Commit(t))
  {
    var tx := s.open[t];
    State(Unprimed(s.ts, tx.cleared)[tx.id := tx.row], s.nextId, s.open - {t},
          if tx.row.primary then s.log + [Committed(tx.id, tx.row.call, tx.seen)] else s.log)
  }

  function Next(s: State, step: Step): State
    requires Enabled(s, step)
  {
    match step
    case Begin(t, row) => s.(open := s.open[t := Begun(row)])
    case Clear(t) => AfterClear(s, t)
    case Insert(t) => AfterInsert(s, t)
    case Commit(t) => AfterCommit(s, t)
    case Abort(t) => s.(open := s.open - {t})
  }

  ghost predicate Runs(steps: seq<Step>)
    decreases |steps|, 0
  {
    steps == [] || (Runs(steps[..|steps| - 1]) && Enabled(After(steps[..|steps| - 1]), steps[|steps| - 1]))
  }

  ghost function After(steps: seq<Step>): State
    requires Runs(steps)
    decreases |steps|, 1
  {
    if steps == [] then EMPTY else Next(After(steps[..|steps| - 1]), steps[|steps| - 1])
  }

  // ----------------------------------------------------------------- invariant

  /** No later transaction of the call began its clear after this one's commit. */
  ghost predicate Uncleared(log: seq<Committed>, i: nat)
    requires i < |log|
  {
    forall j | i < j < |log| && log[j].call == log[i].call :: log[j].seen <= i
  }

  ghost predicate TsInv(s: State) {
    && (forall id <- s.ts :: id < s.nextId)
    && (forall id <- s.ts :: s.ts[id].primary ==> exists i :: 0 <= i < |s.log| && s.log[i].id == id)
    && (forall t <- s.open :: s.open[t].Inserted? ==> s.open[t].id < s.nextId && s.open[t].id !in s.ts)
    && (forall t <- s.open, u <- s.open ::
          s.open[t].Inserted? && s.open[u].Inserted? && s.open[t].id == s.open[u].id ==> t == u)
  }

  ghost predicate LogInv(s: State) {
    && (forall i :: 0 <= i < |s.log| ==> s.log[i].id in s.ts && s.ts[s.log[i].id].call == s.log[i].call)
    && (forall i, j :: 0 <= i < j < |s.log| ==> s.log[i].id != s.log[j].id)
    && (forall i :: 0 <= i < |s.log| ==> (s.ts[s.log[i].id].primary <==> Uncleared(s.log, i)))
  }

  /** What a transaction cleared: rows of its call committed before its clear,
      among them all that are still primary. */
  ghost predicate TxInv(s: State, tx: Tx) {
    tx.Begun? ||
    (&& tx.seen <= |s.log|
     && (forall id <- tx.cleared :: exists i :: 0 <= i < tx.seen && s.log[i].id == id && s.log[i].call == tx.row.call)
     && (forall i ::
           0 <= i < tx.seen && s.log[i].call == tx.row.call
           && s.log[i].id in s.ts && s.ts[s.log[i].id].primary ==>
             tx.row.primary ==> s.log[i].id in tx.cleared)
     && (tx.Cleared? ==> tx.row.primary))
  }

  ghost predicate Inv(s: State) {
    TsInv(s) && LogInv(s) && forall t <- s.open :: TxInv(s, s.open[t])
  }

  /** A row that is not primary clears nothing. */
  ghost predicate QuietInv(s: State) {
    forall t <- s.open :: s.open[t].Inserted? && !s.open[t].row.primary ==> s.open[t].cleared == {}
  }

  lemma ClearKeepsInv(s: State, t: nat)
    requires Inv(s) && Enabled(s, Clear(t))
    ensures Inv(AfterClear(s, t))
  {
    var n, row := AfterClear(s, t), s.open[t].row;
    forall id <- n.open[t].cleared
      ensures exists i :: 0 <= i < n.open[t].seen && n.log[i].id == id && n.log[i].call == row.call
    {
      assert IsPrimaryOf(s.ts, id, row.call);
      var i :| 0 <= i < |s.log| && s.log[i].id == id;
    }
    forall i | 0 <= i < |n.log| && n.log[i].call == row.call && n.ts[n.log[i].id].primary
      ensures n.log[i].id in n.open[t].cleared
    {
      assert IsPrimaryOf(s.ts, n.log[i].id, row.call);
    }
    assert TxInv(n, n.open[t]);
    forall u <- n.open | u != t
      ensures TxInv(n, n.open[u])
    {
      assert TxInv(s, s.open[u]);
    }
  }

  lemma InsertKeepsInv(s: State, t: nat)
    requires Inv(s) && Enabled(s, Insert(t))
    ensures Inv(AfterInsert(s, t))
  {
    var n := AfterInsert(s, t);
    assert TxInv(s, s.open[t]);
    assert TxInv(n, n.open[t]);
    forall u <- n.open | u != t
      ensures TxInv(n, n.open[u])
    {
      assert TxInv(s, s.open[u]);
    }
  }

  /** Which rows a commit leaves primary. */
  lemma CommitMeans(s: State, t: nat, i: nat)
    requires Inv(s) && QuietInv(s) && Enabled(s, Commit(t)) && i < |s.log|
    ensures var n := AfterCommit(s, t);
            var c := s.log[i];
            && c.id in n.ts && c.id != s.open[t].id && n.ts[c.id].call == c.call
            && (n.ts[c.id].primary <==>
                s.ts[c.id].primary && !(s.open[t].row.primary && c.call == s.open[t].row.call && i < s.open[t].seen))
  {
    var tx, c := s.open[t], s.log[i];
    assert TxInv(s, tx);
    if c.id in tx.cleared {
      var k :| 0 <= k < tx.seen && s.log[k].id == c.id && s.log[k].call == tx.row.call;
      assert k == i;
    }
  }

  lemma CommitKeepsLog(s: State, t: nat)
    requires Inv(s) && QuietInv(s) && Enabled(s, Commit(t))
    ensures LogInv(AfterCommit(s, t))
  {
    var n, tx := AfterCommit(s, t), s.open[t];
    forall i | 0 <= i < |s.log|
      ensures n.log[i].id in n.ts && n.ts[n.log[i].id].call == n.log[i].call && n.log[i].id != tx.id
      ensures n.ts[n.log[i].id].primary <==> Uncleared(n.log, i)
    {
      CommitMeans(s, t, i);
      UnclearedSnoc(s.log, i, Committed(tx.id, tx.row.call, tx.seen));
    }
  }

  lemma UnclearedSnoc(log: seq<Committed>, i: nat, c: Committed)
    requires i < |log|
    ensures Uncleared(log + [c], i) <==> Uncleared(log, i) && (c.call == log[i].call ==> c.seen <= i)
  {
    var all := log + [c];
    assert forall j :: 0 <= j < |log| ==> all[j] == log[j];
    assert all[|log|] == c;
  }

  lemma CommitKeepsTxs(s: State, t: nat, u: nat)
    requires Inv(s) && QuietInv(s) && Enabled(s, Commit(t)) && u in s.open && u != t
    ensures TxInv(AfterCommit(s, t), s.open[u])
  {
    var n, tx := AfterCommit(s, t), s.open[u];
    assert TxInv(s, tx);
    if !tx.Begun? {
      assert forall i :: 0 <= i < |s.log| ==> n.log[i] == s.log[i];
      forall i | 0 <= i < tx.seen && n.log[i].call == tx.row.call && n.log[i].id in n.ts && n.ts[n.log[i].id].primary
        ensures tx.row.primary ==> n.log[i].id in tx.cleared
      {
        CommitMeans(s, t, i);
      }
    }
  }

  lemma CommitKeepsTs(s: State, t: nat)
    requires Inv(s) && Enabled(s, Commit(t))
    ensures TsInv(AfterCommit(s, t))
  {
    var n, tx := AfterCommit(s, t), s.open[t];
    forall id <- n.ts | n.ts[id].primary
      ensures exists i :: 0 <= i < |n.log| && n.log[i].id == id
    {
      if id == tx.id {
        assert n.log[|s.log|].id == id;
      } else {
        var i :| 0 <= i < |s.log| && s.log[i].id == id;
        assert n.log[i].id == id;
      }
    }
  }

  lemma StepKeepsInv(s: State, step: Step)
    requires Inv(s) && QuietInv(s) && Enabled(s, step)
    ensures Inv(Next(s, step)) && QuietInv(Next(s, step))
  {
    if step.Clear? {
      ClearKeepsInv(s, step.tx);
    } else if step.Insert? {
      assert TxInv(s, s.open[step.tx]);
      InsertKeepsInv(s, step.tx);
    } else if step.Commit? {
      CommitKeepsTs(s, step.tx);
      CommitKeepsLog(s, step.tx);
      forall u <- Next(s, step).open
        ensures TxInv(Next(s, step), Next(s, step).open[u])
      {
        CommitKeepsTxs(s, step.tx, u);
      }
    } else {
      var n := Next(s, step);
      forall u <- n.open
        ensures TxInv(n, n.open[u])
      {
        assert u in s.open ==> TxInv(s, s.open[u]);
      }
    }
  }

  lemma {:induction false} RunKeepsInv(steps: seq<Step>)
    requires Runs(steps)
    ensures Inv(After(steps)) && QuietInv(After(steps))
    decreases |steps|
  {
    if steps != [] {
      RunKeepsInv(steps[..|steps| - 1]);
      StepKeepsInv(After(steps[..|steps| - 1]), steps[|steps| - 1]);
    }
  }

  // -------------------------------------------------------------- main results

  ghost predicate TwoPrimaries(ts: map<nat, Transcription>, call: CallKey) {
    exists a, b :: a != b && IsPrimaryOf(ts, a, call) && IsPrimaryOf(ts, b, call)
  }

  /** A transaction of the call committed while every later one of the call, and
      there is one, had already cleared. */
  ghost predicate LeftBehind(log: seq<Committed>, call: CallKey) {
    exists i, j :: 0 <= i < j < |log| && log[i].call == call && log[j].call == call && Uncleared(log, i)
  }

  /** The last transaction of the call, of those from `i` on. */
  lemma {:induction false} LastOfCall(log: seq<Committed>, i: nat) returns (k: nat)
    requires i < |log|
    ensures i <= k < |log| && log[k].call == log[i].call
    ensures forall j | k < j < |log| :: log[j].call != log[i].call
    decreases |log| - i
  {
    if j :| i < j < |log| && log[j].call == log[i].call {
      k := LastOfCall(log, j);
    } else {
      k := i;
    }
  }

  lemma TwoPrimariesIff(s: State, call: CallKey)
    requires Inv(s)
    ensures TwoPrimaries(s.ts, call) <==> LeftBehind(s.log, call)
  {
    if TwoPrimaries(s.ts, call) {
      PrimariesLeftBehind(s, call);
    }
    LeftBehindIsPrimary(s, call);
  }

  lemma PrimariesLeftBehind(s: State, call: CallKey)
    requires Inv(s) && TwoPrimaries(s.ts, call)
    ensures LeftBehind(s.log, call)
  {
    var a, b :| a != b && IsPrimaryOf(s.ts, a, call) && IsPrimaryOf(s.ts, b, call);
    var i :| 0 <= i < |s.log| && s.log[i].id == a;
    var j :| 0 <= j < |s.log| && s.log[j].id == b;
    var k := if i < j then i else j;
    assert Uncleared(s.log, k);
  }

  lemma LeftBehindIsPrimary(s: State, call: CallKey)
    requires Inv(s)
    ensures LeftBehind(s.log, call) ==> TwoPrimaries(s.ts, call)
  {
    if !LeftBehind(s.log, call) {
      return;
    }
    var i, j :| 0 <= i < j < |s.log| && s.log[i].call == call && s.log[j].call == call && Uncleared(s.log, i);
    var k := LastOfCall(s.log, j);
    assert Uncleared(s.log, k);
    assert IsPrimaryOf(s.ts, s.log[i].id, call) && IsPrimaryOf(s.ts, s.log[k].id, call);
  }

  /** A run leaves a call two primaries if and only if, of its committed primary
      transactions, one committed after all later ones had cleared: it
      overlapped them, and none has cleared since. */
  lemma EndsWithTwoPrimariesIff(steps: seq<Step>, call: CallKey)
    requires Runs(steps)
    ensures TwoPrimaries(After(steps).ts, call) <==> LeftBehind(After(steps).log, call)
  {
    RunKeepsInv(steps);
    TwoPrimariesIff(After(steps), call);
  }

  /** The clear of the second came before the commit of the first. */
  predicate Overlapped(log: seq<Committed>, i: nat, j: nat)
    requires i < j < |log|
  {
    log[i].call == log[j].call && log[j].seen <= i
  }

  ghost predicate NoneOverlapped(log: seq<Committed>) {
    forall i, j | 0 <= i < j < |log| :: !Overlapped(log, i, j)
  }

  ghost predicate NeverTwo(steps: seq<Step>)
    requires Runs(steps)
    decreases |steps|
  {
    && (forall call :: !TwoPrimaries(After(steps).ts, call))
    && (steps == [] || NeverTwo(steps[..|steps| - 1]))
  }

  lemma LeftBehindMeans(log: seq<Committed>)
    ensures NoneOverlapped(log) ==> forall call :: !LeftBehind(log, call)
  {
    if NoneOverlapped(log) {
      forall i, j | 0 <= i < j < |log| && log[i].call == log[j].call
        ensures !Uncleared(log, i)
      {
        assert !Overlapped(log, i, j);
      }
    }
  }

  /** The first overlap leaves its call two primaries. */
  lemma OverlapLeavesBehind(log: seq<Committed>, c: Committed)
    requires NoneOverlapped(log) && !NoneOverlapped(log + [c])
    ensures LeftBehind(log + [c], c.call)
  {
    var all := log + [c];
    var i, j :| 0 <= i < j < |all| && Overlapped(all, i, j);
    assert forall p, q | 0 <= p < q < |log| :: Overlapped(all, p, q) <==> Overlapped(log, p, q);
    assert j == |log|;
    var k := LastOfCall(log, i);
    forall m | k < m < |all| && all[m].call == all[k].call
      ensures all[m].seen <= k
    {
      assert m == |log|;
    }
    assert Uncleared(all, k);
  }

  lemma CommitAddsOne(s: State, step: Step)
    requires Enabled(s, step)
    ensures Next(s, step).log == s.log || exists c :: Next(s, step).log == s.log + [c]
  {
  }

  /** Over a whole run no call ever has two primaries if and only if no two of its
      committed primary transactions overlapped. */
  lemma {:induction false} NeverTwoPrimariesIff(steps: seq<Step>)
    requires Runs(steps)
    ensures NeverTwo(steps) <==> NoneOverlapped(After(steps).log)
    decreases |steps|
  {
    RunKeepsInv(steps);
    var n := After(steps);
    forall call
      ensures TwoPrimaries(n.ts, call) <==> LeftBehind(n.log, call)
    {
      TwoPrimariesIff(n, call);
    }
    LeftBehindMeans(n.log);
    if steps != [] {
      var front, step := steps[..|steps| - 1], steps[|steps| - 1];
      NeverTwoPrimariesIff(front);
      CommitAddsOne(After(front), step);
      NoneOverlappedPrefix(After(front).log, n.log);
      if NoneOverlapped(After(front).log) && !NoneOverlapped(n.log) {
        var c :| n.log == After(front).log + [c];
        OverlapLeavesBehind(After(front).log, c);
      }
    }
  }

  lemma NoneOverlappedPrefix(log: seq<Committed>, all: seq<Committed>)
    requires log <= all
    ensures NoneOverlapped(all) ==> NoneOverlapped(log)
  {
    assert forall i, j | 0 <= i < j < |log| :: Overlapped(log, i, j) <==> Overlapped(all, i, j);
  }

  // --------------------------------------------------------------- an overlap

  lemma Snoc(steps: seq<Step>, step: Step)
    requires Runs(steps) && Enabled(After(steps), step)
    ensures Runs(steps + [step]) && After(steps + [step]) == Next(After(steps), step)
  {
    assert (steps + [step])[..|steps|] == steps;
  }

  /** Both begin and clear, and then both insert and commit. */
  lemma TwoFirstsCleared(a: Transcription, b: Transcription) returns (steps: seq<Step>)
    requires a.primary && b.primary
    ensures Runs(steps)
    ensures After(steps) == State(map[], 1, map[1 := Cleared(a, {}, 0), 2 := Cleared(b, {}, 0)], [])
  {
    assert Runs([]) && After([]) == EMPTY;
    Snoc([], Begin(1, a));
    steps := [] + [Begin(1, a)];
    Snoc(steps, Clear(1));
    steps := steps + [Clear(1)];
    assert PrimariesOf(map[], a.call) == {};
    Snoc(steps, Begin(2, b));
    steps := steps + [Begin(2, b)];
    Snoc(steps, Clear(2));
    steps := steps + [Clear(2)];
    assert PrimariesOf(map[], b.call) == {};
  }

  /** Two first transcriptions of a call that overlap leave it two primaries. */
  lemma TwoFirstsLeaveTwoPrimaries(a: Transcription, b: Transcription)
    requires a.primary && b.primary && a.call == b.call
    ensures exists steps :: Runs(steps) && TwoPrimaries(After(steps).ts, a.call)
  {
    var steps := TwoFirstsCleared(a, b);
    Snoc(steps, Insert(1));
    var steps1 := steps + [Insert(1)];
    Snoc(steps1, Commit(1));
    var steps2 := steps1 + [Commit(1)];
    Snoc(steps2, Insert(2));
    var steps3 := steps2 + [Insert(2)];
    Snoc(steps3, Commit(2));
    var n := After(steps3 + [Commit(2)]);
    assert n.ts[1] == a && n.ts[2] == b;
    assert IsPrimaryOf(n.ts, 1, a.call) && IsPrimaryOf(n.ts, 2, a.call);
    assert TwoPrimaries(n.ts, a.call);
  }
}
