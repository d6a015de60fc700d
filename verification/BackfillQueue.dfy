/** The backfill manager's queue, its worker loop and the capacity-1 channel
    that wakes it (internal/ingest/backfill.go:123-263 and 336-347). Sections
    under the mutex are atomic; everything between them interleaves. */
module BackfillQueue {
  import opened Sql

  datatype Job = Job(id: nat, total: nat, completed: nat, failed: nat)

  /** The fields under the mutex; `cancelled` is whether the active job's
      context was cancelled. */
  datatype Manager = Manager(nextId: nat, queue: seq<Job>, active: Option<Job>, cancelled: bool)

  const EMPTY := Manager(0, [], None, false)

  function Submitted(m: Manager, total: nat): Manager {
    m.(nextId := m.nextId + 1, queue := m.queue + [Job(m.nextId + 1, total, 0, 0)])
  }

  /** The jobs ahead of a newly submitted one. */
  function Position(m: Manager): nat {
    |m.queue| + if m.active.Some? then 1 else 0
  }

  predicate Queued(queue: seq<Job>, id: int) {
    exists j <- queue :: j.id == id
  }

  function Without(queue: seq<Job>, id: int): seq<Job> {
    if queue == [] then []
    else if queue[0].id == id then queue[1..]
    else [queue[0]] + Without(queue[1..], id)
  }

  predicate IsActive(m: Manager, id: int) {
    m.active.Some? && m.active.value.id == id
  }

  function Cancel(m: Manager, id: int): (Manager, bool) {
    if id <= 0 then (m.(queue := [], cancelled := m.cancelled || m.active.Some?), m.active.Some? || m.queue != [])
    else if IsActive(m, id) then (m.(cancelled := true), true)
    else if Queued(m.queue, id) then (m.(queue := Without(m.queue, id)), true)
    else (m, false)
  }

  function Taken(m: Manager): Manager
    requires m.queue != []
  {
    Manager(m.nextId, m.queue[1..], Some(m.queue[0]), false)
  }

  function Recounted(j: Job, total: Option<nat>): Job {
    if total.Some? then j.(total := total.value) else j
  }

  function Recorded(j: Job, enqueued: bool): Job {
    var n := if enqueued then j.(completed := j.completed + 1) else j.(failed := j.failed + 1);
    if n.completed + n.failed > n.total then n.(total := n.completed + n.failed) else n
  }

  function Released(m: Manager): Manager {
    m.(active := None, cancelled := false)
  }

  // ------------------------------------------------------------------- steps

  /** Where the worker loop is: about to look at the queue, waiting for a
      signal, working on a job before and after its recount, or gone. */
  datatype Pc = Looking | Waiting | Starting | Working | Gone

  /** `signalling` counts submitters between the unlock and the send; `token`
      is a signal in the channel. `started` lists the jobs taken, in order;
      `finished` and `dropped` are the jobs that ended, the latter because they
      were cancelled. */
  datatype State = State(
    m: Manager, pc: Pc, signalling: nat, token: bool, down: bool,
    started: seq<nat>, finished: set<nat>, dropped: set<nat>)

  datatype Step =
    | Submit(total: nat)
    | Signal
    | CancelJob(id: int)
    | Look
    | Wake
    | Recount(count: Option<nat>)
    | Record(enqueued: bool)
    | Finish
    | Shutdown
    | Leave

  ghost predicate Init(s: State) {
    s == State(EMPTY, Looking, 0, false, false, [], {}, {})
  }

  predicate Enabled(s: State, step: Step) {
    match step
    case Submit(_) => true
    case Signal => s.signalling > 0
    case CancelJob(_) => true
    case Look => s.pc.Looking?
    case Wake => s.pc.Waiting? && s.token
    case Recount(_) => s.pc.Starting?
    case Record(_) => s.pc.Working?
    case Finish => s.pc.Starting? || s.pc.Working?
    case Shutdown => true
    case Leave => s.pc.Waiting? && s.down
  }

  function Ids(queue: seq<Job>): set<nat> {
    set j <- queue :: j.id
  }

  function AfterCancel(s: State, id: int): State {
    var m := Cancel(s.m, id).0;
    s.(m := m, dropped := s.dropped + (Ids(s.m.queue) - Ids(m.queue)))
  }

  function AfterLook(s: State): State {
    if s.m.queue == [] then s.(pc := Waiting)
    else s.(m := Taken(s.m), pc := Starting, started := s.started + [s.m.queue[0].id])
  }

  function AfterFinish(s: State): State {
    if s.m.active.None? then s.(pc := Looking)
    else if s.m.cancelled || s.down
    then s.(m := Released(s.m), pc := Looking, dropped := s.dropped + {s.m.active.value.id})
    else s.(m := Released(s.m), pc := Looking, finished := s.finished + {s.m.active.value.id})
  }

  function WithActive(s: State, f: Job -> Job): State {
    if s.m.active.None? then s else s.(m := s.m.(active := Some(f(s.m.active.value))))
  }

  function Next(s: State, step: Step): State
    requires Enabled(s, step)
  {
    match step
    case Submit(total) => s.(m := Submitted(s.m, total), signalling := s.signalling + 1)
    case Signal => s.(signalling := s.signalling - 1, token := true)
    case CancelJob(id) => AfterCancel(s, id)
    case Look => AfterLook(s)
    case Wake => s.(token := false, pc := Looking)
    case Recount(count) => WithActive(s.(pc := Working), j => Recounted(j, count))
    case Record(enqueued) => WithActive(s, j => Recorded(j, enqueued))
    case Finish => AfterFinish(s)
    case Shutdown => s.(down := true)
    case Leave => s.(pc := Gone)
  }

  ghost predicate Runs(s: State, steps: seq<Step>)
    decreases |steps|, 0
  {
    steps == [] ||
    (Runs(s, steps[..|steps| - 1]) && Enabled(After(s, steps[..|steps| - 1]), steps[|steps| - 1]))
  }

  ghost function After(s: State, steps: seq<Step>): State
    requires Runs(s, steps)
    decreases |steps|, 1
  {
    if steps == [] then s else Next(After(s, steps[..|steps| - 1]), steps[|steps| - 1])
  }

  // --------------------------------------------------------------- invariant

  predicate ActiveIs(m: Manager, id: nat) {
    m.active.Some? && m.active.value.id == id
  }

  /** How many of the four places a job is in. */
  function Places(s: State, id: nat): nat {
    (if id in Ids(s.m.queue) then 1 else 0) + (if ActiveIs(s.m, id) then 1 else 0)
    + (if id in s.finished then 1 else 0) + (if id in s.dropped then 1 else 0)
  }

  ghost predicate QueueInv(m: Manager) {
    && (forall j <- m.queue :: 0 < j.id <= m.nextId && j.completed == 0 && j.failed == 0)
    && (forall i, j :: 0 <= i < j < |m.queue| ==> m.queue[i].id < m.queue[j].id)
    && (m.active.Some? ==> m.active.value.id <= m.nextId && forall j <- m.queue :: m.active.value.id < j.id)
  }

  ghost predicate PlacesInv(s: State) {
    forall id: nat :: Places(s, id) == if 0 < id <= s.m.nextId then 1 else 0
  }

  ghost predicate StartedInv(s: State) {
    && (forall i, j :: 0 <= i < j < |s.started| ==> s.started[i] < s.started[j])
    && (forall i <- s.started :: i <= s.m.nextId && forall j <- s.m.queue :: i < j.id)
    && (forall k <- s.finished :: k in s.started)
    && (s.m.active.Some? ==> s.started != [] && s.started[|s.started| - 1] == s.m.active.value.id)
  }

  ghost predicate ActiveInv(s: State) {
    && (s.m.active.Some? <==> s.pc.Starting? || s.pc.Working?)
    && (s.pc.Starting? ==> s.m.active.value.completed == 0 && s.m.active.value.failed == 0)
    && (s.m.active.Some? ==> s.m.active.value.completed + s.m.active.value.failed <= s.m.active.value.total)
  }

  ghost predicate WakeInv(s: State) {
    s.pc.Waiting? && s.m.queue != [] ==> s.token || s.signalling > 0
  }

  ghost predicate Inv(s: State) {
    QueueInv(s.m) && PlacesInv(s) && StartedInv(s) && ActiveInv(s) && WakeInv(s)
  }

  // ------------------------------------------------------------------ cancel

  /** Cancelling a queued job takes out that job and leaves the rest in order. */
  lemma {:induction false} WithoutMeans(queue: seq<Job>, id: int)
    requires forall i, j :: 0 <= i < j < |queue| ==> queue[i].id < queue[j].id
    ensures var q := Without(queue, id);
            && (forall j :: j in q <==> j in queue && j.id != id)
            && (forall i, j :: 0 <= i < j < |q| ==> q[i].id < q[j].id)
  {
    if queue != [] {
      var tail := queue[1..];
      assert forall j :: j in queue <==> j == queue[0] || j in tail;
      assert forall j <- tail :: queue[0].id < j.id;
      WithoutMeans(tail, id);
      var q := Without(queue, id);
      forall i, j | 0 <= i < j < |q|
        ensures q[i].id < q[j].id
      {
        if queue[0].id != id {
          assert q[j] in Without(tail, id);
        }
      }
    }
  }

  /** What a cancel of one job leaves: the other queued jobs in their order, the
      active one's context cancelled if it is that job, and an answer that says
      whether there was such a job. */
  ghost predicate CancelsOne(m: Manager, id: int, n: Manager, found: bool) {
    && (forall j :: j in n.queue <==> j in m.queue && j.id != id) && QueueInv(n)
    && n.active == m.active && n.nextId == m.nextId
    && (n.cancelled <==> m.cancelled || (m.active.Some? && m.active.value.id == id))
    && (found <==> (m.active.Some? && m.active.value.id == id) || exists j <- m.queue :: j.id == id)
  }

  /** And what a cancel of all does. */
  ghost predicate CancelsAll(m: Manager, n: Manager, found: bool) {
    && n.queue == [] && n.active == m.active && n.nextId == m.nextId
    && (n.cancelled <==> m.cancelled || m.active.Some?)
    && (found <==> m.active.Some? || |m.queue| > 0)
  }

  lemma CancelMeans(m: Manager, id: int)
    requires QueueInv(m)
    ensures var (n, found) := Cancel(m, id); if id <= 0 then CancelsAll(m, n, found) else CancelsOne(m, id, n, found)
  {
    CancelShrinksQueue(m, id);
    WithoutMeans(m.queue, id);
  }

  lemma CancelShrinksQueue(m: Manager, id: int)
    requires QueueInv(m)
    ensures QueueInv(Cancel(m, id).0)
    ensures forall j <- Cancel(m, id).0.queue :: j in m.queue
    ensures Ids(Cancel(m, id).0.queue) <= Ids(m.queue)
  {
    WithoutMeans(m.queue, id);
    assert forall j <- Cancel(m, id).0.queue :: j in m.queue;
  }

  lemma CancelKeepsInv(s: State, id: int)
    requires Inv(s)
    ensures Inv(AfterCancel(s, id))
  {
    CancelShrinksQueue(s.m, id);
    var n := AfterCancel(s, id);
    forall k: nat
      ensures Places(n, k) == if 0 < k <= n.m.nextId then 1 else 0
    {
      assert Places(s, k) == if 0 < k <= s.m.nextId then 1 else 0;
    }
    assert n.m.active == s.m.active;
  }

  /** Taking the head leaves larger IDs behind. */
  lemma TakingShrinksQueue(m: Manager)
    requires QueueInv(m) && m.queue != []
    ensures QueueInv(Taken(m))
    ensures forall j <- Taken(m).queue :: j in m.queue && m.queue[0].id < j.id
    ensures forall j <- m.queue :: j == m.queue[0] || j in Taken(m).queue
  {
    var first, tail := m.queue[0], m.queue[1..];
    forall j <- tail
      ensures j in m.queue && first.id < j.id
    {
      var i :| 0 <= i < |tail| && tail[i] == j;
      assert m.queue[i + 1] == j;
    }
    assert m.queue == [first] + tail;
    assert first in m.queue;
  }

  lemma LookKeepsPlaces(s: State)
    requires Inv(s) && s.pc.Looking? && s.m.queue != []
    ensures PlacesInv(AfterLook(s))
  {
    TakingShrinksQueue(s.m);
    var n := AfterLook(s);
    assert Ids(n.m.queue) == Ids(s.m.queue) - {s.m.queue[0].id};
    forall k: nat
      ensures Places(n, k) == if 0 < k <= n.m.nextId then 1 else 0
    {
      assert Places(s, k) == if 0 < k <= s.m.nextId then 1 else 0;
    }
  }

  lemma LookKeepsInv(s: State)
    requires Inv(s) && s.pc.Looking?
    ensures Inv(AfterLook(s))
  {
    if s.m.queue != [] {
      TakingShrinksQueue(s.m);
      LookKeepsPlaces(s);
      var n := AfterLook(s);
      assert s.m.queue[0] in s.m.queue;
      assert forall i :: i in n.started <==> i in s.started || i == s.m.queue[0].id;
      assert forall k :: 0 <= k < |s.started| ==> s.started[k] in s.started;
    } else {
      StayingPutKeepsInv(s, AfterLook(s));
    }
  }

  lemma SubmitKeepsInv(s: State, total: nat)
    requires Inv(s)
    ensures Inv(Next(s, Submit(total)))
  {
    var n := Next(s, Submit(total));
    var job := Job(s.m.nextId + 1, total, 0, 0);
    assert forall j :: j in n.m.queue <==> j in s.m.queue || j == job;
    assert forall k :: 0 <= k < |s.m.queue| ==> s.m.queue[k] in s.m.queue;
    assert QueueInv(n.m);
    assert Ids(n.m.queue) == Ids(s.m.queue) + {job.id};
    forall k: nat
      ensures Places(n, k) == if 0 < k <= n.m.nextId then 1 else 0
    {
      assert Places(s, k) == if 0 < k <= s.m.nextId then 1 else 0;
    }
  }

  lemma FinishKeepsInv(s: State)
    requires Inv(s) && (s.pc.Starting? || s.pc.Working?)
    ensures Inv(AfterFinish(s))
  {
    var n := AfterFinish(s);
    forall k: nat
      ensures Places(n, k) == if 0 < k <= n.m.nextId then 1 else 0
    {
      assert Places(s, k) == if 0 < k <= s.m.nextId then 1 else 0;
    }
  }

  /** Every part of the invariant about jobs follows when they all stay put. */
  lemma StayingPutKeepsInv(s: State, n: State)
    requires Inv(s) && n.m.queue == s.m.queue && n.m.nextId == s.m.nextId
    requires n.m.active.Some? <==> s.m.active.Some?
    requires n.m.active.Some? ==> n.m.active.value.id == s.m.active.value.id
    requires n.started == s.started && n.finished == s.finished && n.dropped == s.dropped
    ensures QueueInv(n.m) && PlacesInv(n) && StartedInv(n)
  {
    forall k: nat
      ensures Places(n, k) == if 0 < k <= n.m.nextId then 1 else 0
    {
      assert Places(s, k) == if 0 < k <= s.m.nextId then 1 else 0;
    }
  }

  lemma WorkKeepsInv(s: State, step: Step)
    requires Inv(s) && Enabled(s, step) && (step.Recount? || step.Record?)
    ensures Inv(Next(s, step))
  {
    StayingPutKeepsInv(s, Next(s, step));
  }

  lemma SignalKeepsInv(s: State, step: Step)
    requires Inv(s) && Enabled(s, step) && (step.Signal? || step.Wake? || step.Shutdown? || step.Leave?)
    ensures Inv(Next(s, step))
  {
    StayingPutKeepsInv(s, Next(s, step));
  }

  lemma StepKeepsInv(s: State, step: Step)
    requires Inv(s) && Enabled(s, step)
    ensures Inv(Next(s, step))
  {
    match step
    case Submit(total) => SubmitKeepsInv(s, total);
    case CancelJob(id) => CancelKeepsInv(s, id);
    case Look => LookKeepsInv(s);
    case Finish => FinishKeepsInv(s);
    case Recount(_) => WorkKeepsInv(s, step);
    case Record(_) => WorkKeepsInv(s, step);
    case _ => SignalKeepsInv(s, step);
  }

  lemma {:induction false} RunKeepsInv(s: State, steps: seq<Step>)
    requires Init(s) && Runs(s, steps)
    ensures Inv(After(s, steps))
    decreases |steps|
  {
    if steps != [] {
      RunKeepsInv(s, steps[..|steps| - 1]);
      StepKeepsInv(After(s, steps[..|steps| - 1]), steps[|steps| - 1]);
    }
  }

  // ----------------------------------------------------------- main results

  /** After any interleaving: each submitted job is in exactly one of queued,
      active, finished and cancelled, and nothing else is in any of them; jobs
      started in the order of their IDs, which is the order of submission, and
      only cancelled ones were passed over; and no job's counts exceed its
      total. */
  lemma EveryJobIsInOnePlace(s: State, steps: seq<Step>)
    requires Init(s) && Runs(s, steps)
    ensures var n := After(s, steps);
            && (forall id: nat :: Places(n, id) == if 0 < id <= n.m.nextId then 1 else 0)
            && (forall i, j :: 0 <= i < j < |n.started| ==> n.started[i] < n.started[j])
            && (forall i <- n.started, k: nat | 0 < k < i :: k in n.started || k in n.dropped)
            && (n.m.active.Some? ==> n.m.active.value.completed + n.m.active.value.failed <= n.m.active.value.total)
            && (forall j <- n.m.queue :: j.completed + j.failed <= j.total)
  {
    RunKeepsInv(s, steps);
    var n := After(s, steps);
    forall i <- n.started, k: nat | 0 < k < i
      ensures k in n.started || k in n.dropped
    {
      assert Places(n, k) == 1;
    }
  }

  lemma EndedIsNowhereElse(s: State, id: nat)
    requires Inv(s) && id in s.finished + s.dropped
    ensures !Queued(s.m.queue, id) && !ActiveIs(s.m, id)
  {
    assert Places(s, id) <= 1;
    assert forall j <- s.m.queue :: j.id in Ids(s.m.queue);
  }

  lemma StepKeepsEnded(s: State, step: Step, id: nat)
    requires Inv(s) && Enabled(s, step) && id in s.finished + s.dropped
    ensures id in Next(s, step).finished + Next(s, step).dropped
    ensures id in Next(s, step).started <==> id in s.started
  {
    EndedIsNowhereElse(s, id);
    if step.Look? && s.m.queue != [] {
      assert s.m.queue[0] in s.m.queue;
    }
  }

  lemma {:induction false} EndedLasts(m: State, more: seq<Step>, id: nat)
    requires Inv(m) && Runs(m, more) && id in m.finished + m.dropped
    ensures Inv(After(m, more)) && id in After(m, more).finished + After(m, more).dropped
    ensures id in After(m, more).started <==> id in m.started
    decreases |more|
  {
    if more != [] {
      var front := more[..|more| - 1];
      EndedLasts(m, front, id);
      StepKeepsInv(After(m, front), more[|more| - 1]);
      StepKeepsEnded(After(m, front), more[|more| - 1], id);
    }
  }

  /** A job that ended, cancelled or not, is never queued or started again. */
  lemma EndedJobsStayEnded(s: State, steps: seq<Step>, more: seq<Step>, id: nat)
    requires Init(s) && Runs(s, steps) && Runs(After(s, steps), more)
    requires id in After(s, steps).finished + After(s, steps).dropped
    ensures var m, n := After(s, steps), After(After(s, steps), more);
            && !Queued(n.m.queue, id) && !ActiveIs(n.m, id)
            && (id in n.started <==> id in m.started)
  {
    RunKeepsInv(s, steps);
    EndedLasts(After(s, steps), more, id);
    EndedIsNowhereElse(After(After(s, steps), more), id);
  }

  /** No wakeup is lost: whenever the loop waits on a non-empty queue, the
      pending signals alone bring it to the job at the head. */
  lemma NoWakeupIsLost(s: State, steps: seq<Step>)
    requires Init(s) && Runs(s, steps)
    requires After(s, steps).pc.Waiting? && After(s, steps).m.queue != []
    ensures var m := After(s, steps);
            && (m.token || Enabled(m, Signal))
            && var signalled := if m.token then m else Next(m, Signal);
            && Enabled(signalled, Wake)
            && Enabled(Next(signalled, Wake), Look)
            && ActiveIs(Next(Next(signalled, Wake), Look).m, m.m.queue[0].id)
  {
    RunKeepsInv(s, steps);
  }

  // ---------------------------------------------------------------- cancelled

  lemma CancelDrops(s: State, id: int, job: nat)
    requires Inv(s) && Queued(s.m.queue, job) && (id <= 0 || id == job)
    ensures var n := Next(s, CancelJob(id));
            && Inv(n) && job in n.dropped && job !in n.started
  {
    CancelKeepsInv(s, id);
    CancelMeans(s.m, id);
    var j :| j in s.m.queue && j.id == job;
    assert job in Ids(s.m.queue);
    var n := Next(s, CancelJob(id));
    assert job !in Ids(n.m.queue);
    assert forall i <- s.started :: i < j.id;
  }

  /** A job that is cancelled while it is queued, by its ID or with all others, is
      never started, whatever follows. */
  lemma CancelledJobNeverStarts(s: State, steps: seq<Step>, id: int, more: seq<Step>, job: nat)
    requires Init(s) && Runs(s, steps) && Queued(After(s, steps).m.queue, job) && (id <= 0 || id == job)
    requires Runs(Next(After(s, steps), CancelJob(id)), more)
    ensures var n := After(Next(After(s, steps), CancelJob(id)), more);
            job !in n.started && !ActiveIs(n.m, job) && !Queued(n.m.queue, job)
  {
    RunKeepsInv(s, steps);
    CancelDrops(After(s, steps), id, job);
    var n := Next(After(s, steps), CancelJob(id));
    EndedLasts(n, more, job);
    EndedIsNowhereElse(After(n, more), job);
  }

  /** Its context is cancelled while it works, or it has been dropped. */
  ghost predicate Doomed(s: State, job: nat) {
    (ActiveIs(s.m, job) && s.m.cancelled) || job in s.dropped
  }

  lemma StepKeepsDoomed(s: State, step: Step, job: nat)
    requires Inv(s) && Enabled(s, step) && Doomed(s, job)
    ensures Doomed(Next(s, step), job)
    ensures step.Finish? ==> job in Next(s, step).dropped
  {
    if step.CancelJob? {
      CancelMeans(s.m, step.id);
    } else if step.Finish? && ActiveIs(s.m, job) {
      assert Places(s, job) == 1;
    } else if step.Finish? {
      EndedIsNowhereElse(s, job);
    }
  }

  lemma {:induction false} DoomedLasts(s: State, more: seq<Step>, job: nat)
    requires Inv(s) && Runs(s, more) && Doomed(s, job)
    ensures Inv(After(s, more)) && Doomed(After(s, more), job)
    decreases |more|
  {
    if more != [] {
      DoomedLasts(s, more[..|more| - 1], job);
      StepKeepsInv(After(s, more[..|more| - 1]), more[|more| - 1]);
      StepKeepsDoomed(After(s, more[..|more| - 1]), more[|more| - 1], job);
    }
  }

  /** A job that is cancelled while it works never counts as finished: from then on
      it works with a cancelled context until it is dropped, and its end drops
      it. */
  lemma CancelledWorkIsDropped(s: State, steps: seq<Step>, id: int, more: seq<Step>, job: nat)
    requires Init(s) && Runs(s, steps) && ActiveIs(After(s, steps).m, job) && (id <= 0 || id == job)
    requires Runs(Next(After(s, steps), CancelJob(id)), more)
    ensures var n := After(Next(After(s, steps), CancelJob(id)), more);
            && job !in n.finished
            && ((ActiveIs(n.m, job) && n.m.cancelled) || job in n.dropped)
            && (Enabled(n, Finish) ==> job in Next(n, Finish).dropped)
  {
    RunKeepsInv(s, steps);
    var m := After(s, steps);
    CancelKeepsInv(m, id);
    CancelMeans(m.m, id);
    var n := Next(m, CancelJob(id));
    assert Places(m, job) == 1;
    DoomedLasts(n, more, job);
    var last := After(n, more);
    assert Places(last, job) <= 1;
    if Enabled(last, Finish) {
      StepKeepsDoomed(last, Finish, job);
    }
  }

  // ------------------------------------------------------------------- working

  /** What the worker does to the job it works on: the recount sets its total if
      counting succeeded; each call counts as completed or failed and raises the
      total if there are more calls than that; and at its end the job is finished
      unless it was cancelled or the manager is going down. */
  lemma WorkMeans(s: State, step: Step)
    requires Inv(s) && Enabled(s, step) && s.m.active.Some?
    ensures var n, j := Next(s, step), s.m.active.value;
            && (step.Recount? && step.count.Some? ==> n.m.active == Some(Job(j.id, step.count.value, 0, 0)))
            && (step.Recount? && step.count.None? ==> n.m.active == Some(j))
            && (step.Record? ==>
                  && n.m.active.Some? && n.m.active.value.id == j.id
                  && n.m.active.value.completed == (if step.enqueued then j.completed + 1 else j.completed)
                  && n.m.active.value.failed == (if step.enqueued then j.failed else j.failed + 1)
                  && n.m.active.value.total ==
                     if j.completed + j.failed < j.total then j.total else j.completed + j.failed + 1)
            && (step.Finish? ==>
                  && n.m.active.None? && n.m.queue == s.m.queue
                  && (j.id in n.finished <==> !s.m.cancelled && !s.down)
                  && (j.id in n.dropped <==> s.m.cancelled || s.down))
  {
    if step.Finish? {
      assert Places(s, s.m.active.value.id) == 1;
    }
  }
}
