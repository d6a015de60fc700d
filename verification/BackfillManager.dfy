/** The backfill manager's methods, and a job's walk over the calls
    (internal/ingest/backfill.go:68-366). */
module BackfillManager {
  import opened Sql
  import opened BackfillPaging
  import opened BackfillQueue

  const BATCH_SIZE: nat := 100

  /** What the rest of the system does while one job runs: the result of the
      recount; the calls the filter selects when each page is read; which page
      queries fail; after how many checks the context is found cancelled; and
      whether each call handed over is accepted. */
  datatype World = World(
    recount: Option<nat>, matching: nat -> set<Key>, queryFails: nat -> bool,
    cancelAt: Option<nat>, accepts: nat -> bool)

  predicate CancelledBy(w: World, check: nat) {
    w.cancelAt.Some? && w.cancelAt.value <= check
  }

  /** Two checks precede every call handed over, and none found the context
      cancelled. */
  predicate InTime(w: World, handed: nat) {
    w.cancelAt.Some? ==> 2 * handed <= w.cancelAt.value
  }

  /** So many checks did not find the context cancelled. */
  predicate Unnoticed(w: World, checks: nat) {
    w.cancelAt.Some? ==> checks <= w.cancelAt.value
  }

  datatype Outcome = LastPage | Cancelled | QueryFailed | OutOfOrder

  datatype Receipt = Receipt(jobId: nat, position: nat, total: nat)

  datatype Status = Status(active: Option<Job>, queued: seq<Job>)

  // -------------------------------------------------------------- specification

  /** The call matches whenever one of the first `pages` pages is read. */
  ghost predicate Throughout(w: World, pages: nat, k: Key) {
    forall n: nat | n < pages :: k in w.matching(n)
  }

  ghost predicate Sometime(w: World, pages: nat, k: Key) {
    exists n: nat :: n < pages && k in w.matching(n)
  }

  /** Everything that matched throughout and is not past the cursor was handed
      over. */
  ghost predicate Covered(w: World, pages: nat, cursor: Option<Key>, handed: seq<Key>) {
    forall k: Key | Throughout(w, pages, k) && !PastCursor(cursor, k) :: k in handed
  }

  ghost predicate CursorIsLast(cursor: Option<Key>, handed: seq<Key>) {
    if cursor.None? then handed == [] else handed != [] && handed[|handed| - 1] == cursor.value
  }

  ghost function LastOf(cursor: Option<Key>, batch: seq<Key>): Option<Key> {
    if batch == [] then cursor else Some(batch[|batch| - 1])
  }

  ghost function AcceptedOf(w: World, n: nat): (count: nat)
    ensures count <= n
  {
    if n == 0 then 0 else AcceptedOf(w, n - 1) + if w.accepts(n - 1) then 1 else 0
  }

  /** A job's counters after `n` calls were handed over. */
  ghost function Progress(j: Job, w: World, n: nat): Job {
    var total := if w.recount.Some? then w.recount.value else j.total;
    Job(j.id, if n > total then n else total, AcceptedOf(w, n), n - AcceptedOf(w, n))
  }

  /** A page extends an ascending list that ends at the cursor. */
  lemma PageExtends(w: World, pages: nat, cursor: Option<Key>, handed: seq<Key>)
    requires Ascending(handed) && CursorIsLast(cursor, handed)
    ensures Ascending(handed + Page(w.matching(pages), cursor, BATCH_SIZE))
  {
    var p := Page(w.matching(pages), cursor, BATCH_SIZE);
    PageMeans(w.matching(pages), cursor, BATCH_SIZE);
    forall i, j | 0 <= i < |handed| && 0 <= j < |p|
      ensures handed[i].Before(p[j])
    {
      assert p[j] in p;
      assert i == |handed| - 1 || handed[i].Before(handed[|handed| - 1]);
    }
  }

  lemma PageCovers(w: World, pages: nat, cursor: Option<Key>, handed: seq<Key>, k: Key)
    requires Covered(w, pages, cursor, handed) && Throughout(w, pages + 1, k)
    ensures var p := Page(w.matching(pages), cursor, BATCH_SIZE);
            k in handed + p || (|p| == BATCH_SIZE && PastCursor(LastOf(cursor, p), k))
  {
    var p := Page(w.matching(pages), cursor, BATCH_SIZE);
    PageMeans(w.matching(pages), cursor, BATCH_SIZE);
    assert Throughout(w, pages, k) && k in w.matching(pages);
    if PastCursor(cursor, k) && k !in p {
      assert p[|p| - 1] in p;
      GuardMatchesQuery(p[|p| - 1], k);
    }
  }

  lemma PageCoversAll(w: World, pages: nat, cursor: Option<Key>, handed: seq<Key>)
    requires Covered(w, pages, cursor, handed)
    ensures var p := Page(w.matching(pages), cursor, BATCH_SIZE);
            && Covered(w, pages + 1, LastOf(cursor, p), handed + p)
            && (|p| < BATCH_SIZE ==> forall k: Key | Throughout(w, pages + 1, k) :: k in handed + p)
  {
    var p := Page(w.matching(pages), cursor, BATCH_SIZE);
    forall k: Key | Throughout(w, pages + 1, k)
      ensures k in handed + p || (|p| == BATCH_SIZE && PastCursor(LastOf(cursor, p), k))
    {
      PageCovers(w, pages, cursor, handed, k);
    }
  }

  lemma PageKeepsSometime(w: World, pages: nat, cursor: Option<Key>, handed: seq<Key>)
    requires forall k <- handed :: Sometime(w, pages, k)
    ensures forall k <- handed + Page(w.matching(pages), cursor, BATCH_SIZE) :: Sometime(w, pages + 1, k)
  {
    PageMeans(w.matching(pages), cursor, BATCH_SIZE);
    forall k <- handed
      ensures Sometime(w, pages + 1, k)
    {
      assert Sometime(w, pages, k);
    }
  }

  /** In order, and each call matched when a page was read. */
  ghost predicate HandedOk(w: World, pages: nat, handed: seq<Key>) {
    Ascending(handed) && forall k <- handed :: Sometime(w, pages, k)
  }

  ghost predicate Complete(w: World, pages: nat, handed: seq<Key>) {
    pages > 0 && forall k: Key | Throughout(w, pages, k) :: k in handed
  }

  ghost predicate Walked(w: World, pages: nat, cursor: Option<Key>, handed: seq<Key>) {
    HandedOk(w, pages, handed) && CursorIsLast(cursor, handed) && Covered(w, pages, cursor, handed)
  }

  lemma PageStep(w: World, pages: nat, cursor: Option<Key>, handed: seq<Key>)
    requires Walked(w, pages, cursor, handed)
    ensures var p := Page(w.matching(pages), cursor, BATCH_SIZE);
            && Walked(w, pages + 1, LastOf(cursor, p), handed + p)
            && (|p| < BATCH_SIZE ==> Complete(w, pages + 1, handed + p))
  {
    PageCoversAll(w, pages, cursor, handed);
    PageKeepsOk(w, pages, cursor, handed);
    PageMovesCursor(cursor, handed, Page(w.matching(pages), cursor, BATCH_SIZE));
  }

  lemma PageKeepsOk(w: World, pages: nat, cursor: Option<Key>, handed: seq<Key>)
    requires HandedOk(w, pages, handed) && CursorIsLast(cursor, handed)
    ensures HandedOk(w, pages + 1, handed + Page(w.matching(pages), cursor, BATCH_SIZE))
  {
    PageExtends(w, pages, cursor, handed);
    PageKeepsSometime(w, pages, cursor, handed);
  }

  lemma PageMovesCursor(cursor: Option<Key>, handed: seq<Key>, page: seq<Key>)
    requires CursorIsLast(cursor, handed)
    ensures CursorIsLast(LastOf(cursor, page), handed + page)
  {
    assert page == [] ==> handed + page == handed;
  }

  lemma PrefixIsOk(w: World, pages: nat, handed: seq<Key>, all: seq<Key>)
    requires handed <= all && HandedOk(w, pages, all)
    ensures HandedOk(w, pages, handed)
  {
    assert forall k <- handed :: k in all;
  }

  ghost function Ahead(universe: set<Key>, cursor: Option<Key>): set<Key> {
    set k <- universe | PastCursor(cursor, k) :: k
  }

  /** A page with calls on it leaves strictly fewer calls ahead. */
  lemma PageShrinks(universe: set<Key>, matching: set<Key>, cursor: Option<Key>)
    requires matching <= universe && Page(matching, cursor, BATCH_SIZE) != []
    ensures Ahead(universe, LastOf(cursor, Page(matching, cursor, BATCH_SIZE))) < Ahead(universe, cursor)
  {
    var p := Page(matching, cursor, BATCH_SIZE);
    PageMeans(matching, cursor, BATCH_SIZE);
    var last := p[|p| - 1];
    assert last in p;
    assert last in Ahead(universe, cursor) && last !in Ahead(universe, Some(last));
    forall k <- Ahead(universe, Some(last))
      ensures k in Ahead(universe, cursor)
    {
    }
  }

  // --------------------------------------------------------------------- class

  class BackfillManager {
    var nextId: nat
    var queue: seq<Job>
    var active: Option<Job>
    var cancelled: bool
    var token: bool

    ghost function View(): Manager
      reads this
    {
      Manager(nextId, queue, active, cancelled)
    }

    constructor ()
      ensures View() == EMPTY && !token
    {
      nextId, queue, active, cancelled, token := 0, [], None, false, false;
    }

    /** Queue a job for the `count` calls that match, None if counting failed. */
    method Submit(count: Option<nat>) returns (r: Option<Receipt>)
      modifies this
      ensures count.None? ==> r.None? && View() == old(View()) && token == old(token)
      ensures count.Some? ==> View() == Submitted(old(View()), count.value) && token
      ensures count.Some? ==> r == Some(Receipt(nextId, Position(old(View())), count.value))
      ensures count.Some? ==> nextId == old(nextId) + 1 && queue == old(queue) + [Job(nextId, count.value, 0, 0)]
      ensures count.Some? ==> active == old(active) && cancelled == old(cancelled)
      ensures count.Some? ==> r.value.position == |old(queue)| + if old(active).Some? then 1 else 0
    {
      if count.None? {
        return None;
      }
      nextId := nextId + 1;
      var job := Job(nextId, count.value, 0, 0);
      queue := queue + [job];
      var position := |queue| - 1;
      if active.Some? {
        position := position + 1;
      }
      token := true;
      r := Some(Receipt(job.id, position, count.value));
    }

    method CancelJob(id: int) returns (found: bool)
      modifies this
      ensures (View(), found) == BackfillQueue.Cancel(old(View()), id)
      ensures token == old(token)
      ensures id <= 0 ==> CancelsAll(old(View()), View(), found)
      ensures id > 0 && QueueInv(old(View())) ==> CancelsOne(old(View()), id, View(), found)
    {
      if QueueInv(View()) {
        CancelMeans(View(), id);
      }
      if id <= 0 {
        found := active.Some? || |queue| > 0;
        queue := [];
        if active.Some? {
          cancelled := true;
        }
        return;
      }
      if active.Some? && active.value.id == id {
        cancelled := true;
        return true;
      }
      var i := 0;
      while i < |queue|
        invariant 0 <= i <= |queue| && View() == old(View()) && token == old(token)
        invariant forall k :: 0 <= k < i ==> queue[k].id != id
      {
        if queue[i].id == id {
          WithoutIs(queue, id, i);
          queue := queue[..i] + queue[i + 1..];
          return true;
        }
        i := i + 1;
      }
      return false;
    }

    method Snapshot() returns (status: Status)
      ensures status == Status(active, queue)
    {
      var queued := [];
      for i := 0 to |queue|
        invariant queued == queue[..i]
      {
        queued := queued + [queue[i]];
      }
      status := Status(active, queued);
    }

    /** The loop takes the next job, if there is one. */
    method TakeNext() returns (taken: bool)
      modifies this
      ensures taken <==> old(queue) != []
      ensures View() == if taken then Taken(old(View())) else old(View())
      ensures token == old(token)
    {
      if |queue| == 0 {
        return false;
      }
      var job := queue[0];
      queue := queue[1..];
      active, cancelled := Some(job), false;
      return true;
    }

    method RecordResult(enqueued: bool)
      requires active.Some?
      modifies this`active
      ensures active == Some(Recorded(old(active.value), enqueued))
    {
      var job := active.value;
      if enqueued {
        job := job.(completed := job.completed + 1);
      } else {
        job := job.(failed := job.failed + 1);
      }
      if job.completed + job.failed > job.total {
        job := job.(total := job.completed + job.failed);
      }
      active := Some(job);
    }

    /** Hand over one page, call by call. The guard against a page that goes
        back is part of the loop; it never fires. */
    method HandPage(w: World, batch: seq<Key>, after: Option<Key>, before: seq<Key>, checked: nat, ghost job: Job)
      returns (handed: seq<Key>, cursor: Option<Key>, checks: nat, stop: Option<Outcome>)
      requires Ascending(before + batch) && CursorIsLast(after, before)
      requires active == Some(Progress(job, w, |before|))
      requires Unnoticed(w, checked)
      modifies this`active
      ensures before <= handed <= before + batch
      ensures stop.None? ==> handed == before + batch && cursor == LastOf(after, batch)
      ensures stop.Some? ==> stop.value == Cancelled && CancelledBy(w, checks)
      ensures Unnoticed(w, checks)
      ensures var passed := checked + 2 * (|handed| - |before|);
              checks == passed || (stop.Some? && checks == passed + 1)
      ensures active == Some(Progress(job, w, |handed|))
    {
      handed, cursor, checks := before, after, checked;
      var i := 0;
      while i < |batch|
        invariant 0 <= i <= |batch| && handed == before + batch[..i]
        invariant cursor == LastOf(after, batch[..i])
        invariant checks == checked + 2 * i && Unnoticed(w, checks)
        invariant active == Some(Progress(job, w, |handed|))
      {
        var key := batch[i];
        assert (before + batch)[|before| + i] == key;
        assert |before| + i > 0 && cursor.Some? ==> cursor.value == (before + batch)[|before| + i - 1];
        if cursor.Some? && !cursor.value.Before(key) {
          return handed, cursor, checks, Some(OutOfOrder);
        }
        cursor := Some(key);
        if CancelledBy(w, checks) {
          return handed, cursor, checks, Some(Cancelled);
        }
        checks := checks + 1;
        if CancelledBy(w, checks) {
          return handed, cursor, checks, Some(Cancelled);
        }
        checks := checks + 1;
        RecordResult(w.accepts(|handed|));
        handed := handed + [key];
        i := i + 1;
      }
      stop := None;
    }

    /** Walk the matching calls page by page, handing each over. No call is
        handed over twice, in newest-first order; each one matched when a page
        was read; the walk never stops because a page went back; one that
        reaches the last page handed over every call that matched throughout;
        and it stops at the first check that finds the job cancelled: one before
        each page and two before each call. */
    method ProcessJob(w: World, ghost universe: set<Key>)
      returns (handed: seq<Key>, outcome: Outcome, pages: nat)
      requires active.Some? && active.value.completed == 0 && active.value.failed == 0
      requires forall n: nat :: w.matching(n) <= universe
      modifies this`active
      ensures HandedOk(w, pages, handed)
      ensures outcome != OutOfOrder
      ensures outcome == LastPage ==> Complete(w, pages, handed)
      ensures InTime(w, |handed|) && Unnoticed(w, pages + 2 * |handed|)
      ensures outcome == Cancelled ==> CancelledBy(w, pages + 2 * |handed| + 1)
      ensures outcome == QueryFailed ==> w.queryFails(pages)
      ensures active == Some(Progress(old(active.value), w, |handed|))
      ensures active.value.completed + active.value.failed == |handed| <= active.value.total
      ensures var counted := if w.recount.Some? then w.recount.value else old(active.value.total);
              active.value.total == if |handed| > counted then |handed| else counted
    {
      handed, outcome, pages := [], LastPage, 0;
      var checks := 0;
      if w.recount.Some? {
        active := Some(active.value.(total := w.recount.value));
      }
      var cursor: Option<Key> := None;
      while true
        invariant Walked(w, pages, cursor, handed)
        invariant checks == pages + 2 * |handed| && Unnoticed(w, checks)
        invariant active == Some(Progress(old(active.value), w, |handed|))
        decreases Ahead(universe, cursor)
      {
        if CancelledBy(w, checks) {
          return handed, Cancelled, pages;
        }
        checks := checks + 1;
        if w.queryFails(pages) {
          return handed, QueryFailed, pages;
        }
        var batch := Page(w.matching(pages), cursor, BATCH_SIZE);
        PageStep(w, pages, cursor, handed);
        if batch != [] {
          PageShrinks(universe, w.matching(pages), cursor);
        }
        ghost var was := handed;
        pages := pages + 1;
        var stop;
        handed, cursor, checks, stop := HandPage(w, batch, cursor, handed, checks, old(active.value));
        PrefixIsOk(w, pages, handed, was + batch);
        if stop.Some? {
          return handed, stop.value, pages;
        }
        if |batch| < BATCH_SIZE {
          return handed, LastPage, pages;
        }
      }
    }

    /** The job leaves the manager. */
    method Release()
      modifies this
      ensures View() == Released(old(View())) && token == old(token)
    {
      active, cancelled := None, false;
    }
  }

  lemma {:induction false} WithoutIs(queue: seq<Job>, id: int, i: nat)
    requires i < |queue| && queue[i].id == id && forall k :: 0 <= k < i ==> queue[k].id != id
    ensures Without(queue, id) == queue[..i] + queue[i + 1..]
  {
    if i > 0 {
      WithoutIs(queue[1..], id, i - 1);
      assert queue[..i] == [queue[0]] + queue[1..][..i - 1];
      assert queue[i + 1..] == queue[1..][i..];
    }
  }

  /** On a set of calls that does not change, the pages joined are the calls in
      one ORDER BY. */
  lemma PagedWalkIsOneQuery(w: World, matching: set<Key>, pages: nat, handed: seq<Key>)
    requires forall n: nat :: w.matching(n) == matching
    requires HandedOk(w, pages, handed) && Complete(w, pages, handed)
    ensures handed == FirstFew(matching, |matching|)
  {
    FirstFewMeans(matching, |matching|);
    FirstFewIsAll(matching);
    forall k: Key
      ensures k in handed <==> k in FirstFew(matching, |matching|)
    {
      if k in matching {
        assert Throughout(w, pages, k);
      }
      if k in handed {
        assert Sometime(w, pages, k);
      }
    }
    AscendingIsUnique(handed, FirstFew(matching, |matching|));
  }

  lemma {:induction false} FirstFewIsAll(s: set<Key>)
    ensures forall k <- s :: k in FirstFew(s, |s|)
    decreases |s|
  {
    if s != {} {
      var rest := s - {First(s)};
      FirstFewIsAll(rest);
      assert |s| > 0 && |rest| == |s| - 1;
    }
  }
}
