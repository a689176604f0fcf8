/** The bounded job queue, app/executor/jobqueue.py.

    The source is one object changed in place by coroutines; a coroutine runs undisturbed from one await
    to the next, so each such stretch is one step here. The pure functions say what a step does, the class
    JobQueue does it in place, and every step keeps the invariant; what this means for runs is in QueueRuns.
    Job objects live in the map jobs; the queue, the workers and the registry of tracked jobs refer to them by
    id. The sequences accepted and started, and the last clock reading, are there for the statements only. */
module JobQueues {
  import opened Options

  type Id = nat

  datatype Config = Config(workers: nat, depth: int, ttl: real)

  datatype Status = Queued | Running | Done | Error
  datatype Result = Output(text: string) | Failure(text: string)
  datatype Future = NoFuture | Pending | Resolved(r: Result) | Raised(exc: string) | Cancelled
  datatype Hook = NoHook | NotCalled | InCall | Returned | Interrupted
  datatype Job = Job(identity: string, status: Status, result: Option<Result>, future: Future,
                     hook: Hook, calls: nat, finishedAt: Option<real>)

  datatype Worker = Idle | Executing(id: Id) | InHook(id: Id) | Exited
  /** drained: the join returned before the grace period ran out. */
  datatype Phase = Up | Draining | Cancelling(drained: bool) | Down(drained: bool)
  datatype Queue = Queue(queue: seq<Id>, jobs: map<Id, Job>, tracked: set<Id>, active: int, unfinished: int,
                         closing: bool, workers: seq<Worker>, phase: Phase,
                         accepted: seq<Id>, started: seq<Id>, clock: real)

  /** How execute() ends. */
  datatype Outcome = Returns(text: string) | Raises(exc: string)

  function Started(c: Config): Queue {
    Queue([], map[], {}, 0, 0, false, seq(c.workers, _ => Idle), Up, [], [], 0.0)
  }

  function SyncJob(identity: string): Job { Job(identity, Queued, None, Pending, NoHook, 0, None) }

  function AsyncJob(identity: string, hooked: bool): Job {
    Job(identity, Queued, None, NoFuture, if hooked then NotCalled else NoHook, 0, None)
  }

  /** _enqueue refuses with QueueFull. asyncio.Queue is unbounded when its maxsize is not positive. */
  predicate Refuses(c: Config, q: Queue) { q.closing || (c.depth > 0 && |q.queue| >= c.depth) }

  function Enqueue(q: Queue, id: Id, job: Job): Queue {
    q.(queue := q.queue + [id], unfinished := q.unfinished + 1, jobs := q.jobs[id := job],
        accepted := q.accepted + [id])
  }

  predicate Stale(c: Config, j: Job, now: real) { j.finishedAt.Some? && now - j.finishedAt.value > c.ttl }

  function Prune(c: Config, q: Queue, now: real): Queue {
    q.(tracked := (set id | id in q.tracked && !(id in q.jobs && Stale(c, q.jobs[id], now))), clock := now)
  }

  /** What get_job answers once it has pruned. */
  predicate Visible(q: Queue, id: Id, identity: string) {
    id in q.tracked && id in q.jobs && q.jobs[id].identity == identity
  }

  function Settle(f: Future, o: Outcome): Future {
    if f != Pending then f else match o case Returns(t) => Resolved(Output(t)) case Raises(e) => Raised(e)
  }

  /** A job whose execution has ended, its hook, if any, being called. */
  function Finished(j: Job, o: Outcome, now: real): Job {
    j.(status := if o.Returns? then Done else Error,
       result := Some(if o.Returns? then Output(o.text) else Failure(o.exc)),
       future := Settle(j.future, o),
       finishedAt := Some(now),
       hook := if j.hook == NoHook then NoHook else InCall,
       calls := if j.hook == NoHook then j.calls else j.calls + 1)
  }

  /** A job whose worker was cancelled while executing it: the status stays running. */
  function CutShort(j: Job, now: real): Job {
    j.(future := if j.future == Pending then Cancelled else j.future, finishedAt := Some(now))
  }

  function Take(q: Queue, w: nat): Queue
    requires w < |q.workers| && q.queue != [] && q.queue[0] in q.jobs
  {
    var id := q.queue[0];
    q.(queue := q.queue[1..], active := q.active + 1, jobs := q.jobs[id := q.jobs[id].(status := Running)],
       workers := q.workers[w := Executing(id)], started := q.started + [id])
  }

  function Finish(q: Queue, w: nat, o: Outcome, now: real): Queue
    requires w < |q.workers| && q.workers[w].Executing? && q.workers[w].id in q.jobs
  {
    var id := q.workers[w].id;
    q.(jobs := q.jobs[id := Finished(q.jobs[id], o, now)], active := q.active - 1, unfinished := q.unfinished - 1,
       workers := q.workers[w := if q.jobs[id].hook == NoHook then Idle else InHook(id)], clock := now)
  }

  function HookEnds(q: Queue, w: nat): Queue
    requires w < |q.workers| && q.workers[w].InHook? && q.workers[w].id in q.jobs
  {
    var id := q.workers[w].id;
    q.(jobs := q.jobs[id := q.jobs[id].(hook := Returned)], workers := q.workers[w := Idle])
  }

  /** CancelledError reaches a worker, wherever it is waiting. */
  function CancelWorker(q: Queue, w: nat, now: real): Queue
    requires w < |q.workers| && (q.workers[w].Executing? || q.workers[w].InHook? ==> q.workers[w].id in q.jobs)
  {
    var gone := q.workers[w := Exited];
    match q.workers[w]
    case Executing(id) =>
      q.(jobs := q.jobs[id := CutShort(q.jobs[id], now)], active := q.active - 1, unfinished := q.unfinished - 1,
         workers := gone, clock := now)
    case InHook(id) => q.(jobs := q.jobs[id := q.jobs[id].(hook := Interrupted)], workers := gone, clock := now)
    case _ => q.(workers := gone, clock := now)
  }

  function WaiterLeaves(q: Queue, id: Id): Queue
    requires id in q.jobs
  {
    var future := if q.jobs[id].future == Pending then Cancelled else q.jobs[id].future;
    q.(jobs := q.jobs[id := q.jobs[id].(future := future)])
  }

  // ---------------------------------------------------------------- steps

  datatype Step =
    | Submit(id: Id, identity: string)
    | SubmitAsync(id: Id, identity: string, hooked: bool, now: real)
    | GetJob(now: real)
    | WorkerTakes(w: nat)
    | WorkerFinishes(w: nat, o: Outcome, now: real)
    | HookReturns(w: nat)
    | WorkerCancelled(w: nat, now: real)
    | WaiterCancelled(id: Id)
    | StopCalled
    | JoinReturns
    | GraceExpires
    | StopReturns

  /** Ids are fresh, the clock does not go back, and only a task that can run takes a step. */
  predicate Enabled(q: Queue, step: Step) {
    match step
    case Submit(id, _) => id !in q.jobs
    case SubmitAsync(id, _, _, now) => id !in q.jobs && now >= q.clock
    case GetJob(now) => now >= q.clock
    case WorkerTakes(w) => w < |q.workers| && q.workers[w].Idle? && q.queue != [] && q.queue[0] in q.jobs &&
        !q.phase.Cancelling?
    case WorkerFinishes(w, _, now) =>
      w < |q.workers| && q.workers[w].Executing? && q.workers[w].id in q.jobs && now >= q.clock && !q.phase.Cancelling?
    case HookReturns(w) => w < |q.workers| && q.workers[w].InHook? && q.workers[w].id in q.jobs && !q.phase.Cancelling?
    case WorkerCancelled(w, now) =>
      w < |q.workers| && !q.workers[w].Exited? && now >= q.clock && q.phase.Cancelling? &&
      (q.workers[w].Executing? || q.workers[w].InHook? ==> q.workers[w].id in q.jobs)
    case WaiterCancelled(id) => id in q.jobs && q.jobs[id].future != NoFuture
    case StopCalled => q.phase.Up?
    case JoinReturns => q.phase.Draining? && q.unfinished == 0
    case GraceExpires => q.phase.Draining?
    case StopReturns => q.phase.Cancelling? && forall w :: 0 <= w < |q.workers| ==> q.workers[w].Exited?
  }

  function Next(c: Config, q: Queue, step: Step): Queue
    requires Enabled(q, step)
  {
    match step
    case Submit(id, identity) => if Refuses(c, q) then q else Enqueue(q, id, SyncJob(identity))
    case SubmitAsync(id, identity, hooked, now) =>
      var p := Prune(c, q, now);
      if Refuses(c, p) then p else var e := Enqueue(p, id, AsyncJob(identity, hooked)); e.(tracked := e.tracked + {id})
    case GetJob(now) => Prune(c, q, now)
    case WorkerTakes(w) => Take(q, w)
    case WorkerFinishes(w, o, now) => Finish(q, w, o, now)
    case HookReturns(w) => HookEnds(q, w)
    case WorkerCancelled(w, now) => CancelWorker(q, w, now)
    case WaiterCancelled(id) => WaiterLeaves(q, id)
    case StopCalled => q.(closing := true, phase := Draining)
    case JoinReturns => q.(phase := Cancelling(true))
    case GraceExpires => q.(phase := Cancelling(false))
    case StopReturns => q.(phase := Down(q.phase.drained), workers := [])
  }

  // ---------------------------------------------------------------- the invariant

  predicate NoDuplicates(s: seq<Id>) { forall i, j :: 0 <= i < j < |s| ==> s[i] != s[j] }

  function CountExecuting(ws: seq<Worker>): nat {
    if ws == [] then 0 else CountExecuting(ws[..|ws| - 1]) + if ws[|ws| - 1].Executing? then 1 else 0
  }

  predicate Cut(p: Phase) { (p.Cancelling? || p.Down?) && !p.drained }

  predicate Stopping(p: Phase) { p.Cancelling? || p.Down? }

  /** What the fields of a job say, given where the job is. */
  predicate JobOk(j: Job, queued: bool, executing: bool, inHook: bool, phase: Phase, clock: real) {
    && (queued <==> j.status.Queued?)
    && (executing <==> j.status.Running? && j.finishedAt.None?)
    && (inHook <==> j.hook.InCall?)
    && (j.status.Running? && j.finishedAt.Some? ==> Cut(phase) && !j.future.Pending?)
    && (j.status.Queued? ==> j.finishedAt.None?)
    && (j.status.Queued? || j.status.Running? ==> j.result.None? && (j.hook.NoHook? || j.hook.NotCalled?))
    && (j.status.Done? ==> j.result.Some? && j.result.value.Output?)
    && (j.status.Error? ==> j.result.Some? && j.result.value.Failure?)
    && (j.status.Done? || j.status.Error? ==> j.finishedAt.Some? && !j.future.Pending? && !j.hook.NotCalled?)
    && j.calls == (if j.hook.NoHook? || j.hook.NotCalled? then 0 else 1)
    && (j.hook.Interrupted? ==> Stopping(phase))
    && (j.future.Resolved? ==> j.result == Some(j.future.r) && j.status.Done?)
    && (j.future.Raised? ==> j.result == Some(Failure(j.future.exc)) && j.status.Error?)
    && (j.finishedAt.Some? ==> j.finishedAt.value <= clock)
  }

  ghost predicate LogsOk(q: Queue) {
    && q.accepted == q.started + q.queue
    && NoDuplicates(q.accepted)
    && (forall id :: id in q.jobs <==> id in q.accepted)
  }

  ghost predicate CountsOk(c: Config, q: Queue) {
    && q.active == CountExecuting(q.workers)
    && q.unfinished == |q.queue| + q.active
    && (c.depth > 0 ==> |q.queue| <= c.depth)
    && |q.workers| == (if q.phase.Down? then 0 else c.workers)
  }

  predicate Busy(x: Worker) { x.Executing? || x.InHook? }

  /** No job occupies two workers. */
  ghost predicate Unique(ws: seq<Worker>) {
    forall v, w :: 0 <= v < w < |ws| && Busy(ws[v]) ==> ws[v] != ws[w]
  }

  ghost predicate WorkersOk(q: Queue) {
    && Unique(q.workers)
    && (forall id :: Executing(id) in q.workers || InHook(id) in q.workers ==> id in q.jobs)
  }

  ghost predicate JobsOk(q: Queue) {
    forall id :: id in q.jobs ==>
      JobOk(q.jobs[id], id in q.queue, Executing(id) in q.workers, InHook(id) in q.workers, q.phase, q.clock)
  }

  ghost predicate TrackedOk(c: Config, q: Queue) {
    && (forall id :: id in q.tracked ==> id in q.jobs && q.jobs[id].future.NoFuture?)
    && (forall id :: id in q.jobs && q.jobs[id].future.NoFuture? && id !in q.tracked ==> Stale(c, q.jobs[id], q.clock))
  }

  ghost predicate PhaseOk(q: Queue) {
    && (q.closing <==> !q.phase.Up?)
    && (Stopping(q.phase) && q.phase.drained ==> q.unfinished == 0)
  }

  ghost predicate Inv(c: Config, q: Queue) {
    LogsOk(q) && CountsOk(c, q) && WorkersOk(q) && JobsOk(q) && TrackedOk(c, q) && PhaseOk(q)
  }

  // ---------------------------------------------------------------- every step keeps it

  lemma UpdateMembers(ws: seq<Worker>, w: nat, x: Worker, y: Worker)
    requires w < |ws| && Unique(ws) && Busy(y)
    ensures y in ws[w := x] <==> y == x || (y in ws && y != ws[w])
  {
    var ws' := ws[w := x];
    if y in ws {
      var i :| 0 <= i < |ws| && ws[i] == y;
      if i != w {
        assert ws'[i] == y;
      }
    }
    assert ws'[w] == x;
  }

  lemma {:induction false} UpdateCount(ws: seq<Worker>, w: nat, x: Worker)
    requires w < |ws|
    ensures CountExecuting(ws[w := x]) ==
            CountExecuting(ws) - (if ws[w].Executing? then 1 else 0) + (if x.Executing? then 1 else 0)
  {
    var n := |ws| - 1;
    if w == n {
      assert ws[w := x][..n] == ws[..n];
    } else {
      UpdateCount(ws[..n], w, x);
      assert ws[w := x][..n] == ws[..n][w := x];
    }
  }

  /** Jobs keep their fields, and their place, when only others change. */
  ghost predicate JobOkIn(q: Queue, id: Id)
    requires id in q.jobs
  {
    JobOk(q.jobs[id], id in q.queue, Executing(id) in q.workers, InHook(id) in q.workers, q.phase, q.clock)
  }

  lemma EnqueueKeepsInv(c: Config, q: Queue, id: Id, job: Job)
    requires Inv(c, q) && id !in q.jobs && !Refuses(c, q)
    requires JobOk(job, true, false, false, q.phase, q.clock)
    ensures var e := Enqueue(q, id, job);
            Inv(c, if job.future.NoFuture? then e.(tracked := e.tracked + {id}) else e)
  {
    var e := Enqueue(q, id, job);
    var e' := if job.future.NoFuture? then e.(tracked := e.tracked + {id}) else e;
    assert LogsOk(e') && JobsOk(e') && WorkersOk(e') && TrackedOk(c, e');
  }

  lemma PruneKeepsInv(c: Config, q: Queue, now: real)
    requires Inv(c, q) && now >= q.clock
    ensures Inv(c, Prune(c, q, now))
  {
  }

  lemma FrontIsFresh(q: Queue)
    requires LogsOk(q) && q.queue != []
    ensures q.queue[0] in q.jobs && q.queue[0] !in q.queue[1..]
    ensures q.accepted == q.started + [q.queue[0]] + q.queue[1..]
    ensures forall i :: i in q.queue <==> i == q.queue[0] || i in q.queue[1..]
  {
    var id, n := q.queue[0], |q.started|;
    assert q.queue == [id] + q.queue[1..];
    assert q.accepted[n] == id;
    forall k | 0 <= k < |q.queue[1..]| ensures q.queue[1..][k] != id {
      assert q.accepted[n + 1 + k] == q.queue[1..][k];
    }
  }

  lemma TakeKeepsJobs(q: Queue, w: nat)
    requires LogsOk(q) && WorkersOk(q) && JobsOk(q) && Enabled(q, WorkerTakes(w))
    ensures JobsOk(Take(q, w)) && WorkersOk(Take(q, w))
  {
    var id, q' := q.queue[0], Take(q, w);
    FrontIsFresh(q);
    assert JobOkIn(q, id);
    forall i | i in q'.jobs ensures JobOkIn(q', i) {
      assert JobOkIn(q, i);
      UpdateMembers(q.workers, w, Executing(id), Executing(i));
      UpdateMembers(q.workers, w, Executing(id), InHook(i));
    }
  }

  lemma TakeKeepsInv(c: Config, q: Queue, w: nat)
    requires Inv(c, q) && Enabled(q, WorkerTakes(w))
    ensures Inv(c, Take(q, w))
  {
    FrontIsFresh(q);
    TakeKeepsJobs(q, w);
    UpdateCount(q.workers, w, Executing(q.queue[0]));
    assert Take(q, w).accepted == Take(q, w).started + Take(q, w).queue;
  }

  /** A worker puts its job down: the shape shared by the end of an execution, of a hook, and a cancellation. */
  lemma PutDownKeepsJobs(q: Queue, q': Queue, w: nat, x: Worker, id: Id, j: Job)
    requires WorkersOk(q) && JobsOk(q) && w < |q.workers| && id in q.jobs
    requires q.workers[w] == Executing(id) || q.workers[w] == InHook(id)
    requires x.Idle? || x.Exited? || (x == InHook(id) && q.workers[w].Executing?)
    requires q'.queue == q.queue && q'.phase == q.phase && q'.clock >= q.clock
    requires q'.jobs == q.jobs[id := j] && q'.workers == q.workers[w := x]
    requires JobOk(j, id in q.queue, false, x == InHook(id), q.phase, q'.clock)
    ensures JobsOk(q') && WorkersOk(q')
  {
    assert q.workers[w] in q.workers && JobOkIn(q, id);
    forall i | i in q'.jobs ensures JobOkIn(q', i) {
      assert JobOkIn(q, i);
      UpdateMembers(q.workers, w, x, Executing(i));
      UpdateMembers(q.workers, w, x, InHook(i));
    }
    forall i | Executing(i) in q'.workers || InHook(i) in q'.workers ensures i in q'.jobs {
      UpdateMembers(q.workers, w, x, Executing(i));
      UpdateMembers(q.workers, w, x, InHook(i));
    }
  }

  lemma FinishedIsOk(j: Job, inHook: bool, phase: Phase, clock: real, o: Outcome, now: real)
    requires JobOk(j, false, true, inHook, phase, clock) && !Stopping(phase)
    ensures JobOk(Finished(j, o, now), false, false, !j.hook.NoHook?, phase, now)
  {
  }

  lemma FinishKeepsJobs(q: Queue, w: nat, o: Outcome, now: real)
    requires WorkersOk(q) && JobsOk(q) && Enabled(q, WorkerFinishes(w, o, now)) && !Stopping(q.phase)
    ensures JobsOk(Finish(q, w, o, now)) && WorkersOk(Finish(q, w, o, now))
    ensures q.jobs[q.workers[w].id].finishedAt.None?
  {
    var id := q.workers[w].id;
    assert q.workers[w] in q.workers && JobOkIn(q, id);
    var x := if q.jobs[id].hook == NoHook then Idle else InHook(id);
    FinishedIsOk(q.jobs[id], InHook(id) in q.workers, q.phase, q.clock, o, now);
    PutDownKeepsJobs(q, Finish(q, w, o, now), w, x, id, Finished(q.jobs[id], o, now));
  }

  /** The registry is not concerned by a change to a job that leaves future and tracking as they are. */
  lemma TrackedStays(c: Config, q: Queue, q': Queue, id: Id, j: Job)
    requires TrackedOk(c, q) && id in q.jobs && q'.jobs == q.jobs[id := j] && q'.tracked == q.tracked &&
             q'.clock >= q.clock
    requires (j.future.NoFuture? <==> q.jobs[id].future.NoFuture?)
    requires Stale(c, q.jobs[id], q.clock) ==> j.finishedAt == q.jobs[id].finishedAt
    ensures TrackedOk(c, q')
  {
  }

  lemma FinishKeepsInv(c: Config, q: Queue, w: nat, o: Outcome, now: real)
    requires Inv(c, q) && Enabled(q, WorkerFinishes(w, o, now))
    ensures Inv(c, Finish(q, w, o, now))
  {
    var id := q.workers[w].id;
    FinishKeepsJobs(q, w, o, now);
    TrackedStays(c, q, Finish(q, w, o, now), id, Finished(q.jobs[id], o, now));
    UpdateCount(q.workers, w, if q.jobs[id].hook == NoHook then Idle else InHook(id));
  }

  lemma HookEndsKeepsInv(c: Config, q: Queue, w: nat)
    requires Inv(c, q) && Enabled(q, HookReturns(w))
    ensures Inv(c, HookEnds(q, w))
  {
    var id := q.workers[w].id;
    assert q.workers[w] in q.workers && JobOkIn(q, id);
    PutDownKeepsJobs(q, HookEnds(q, w), w, Idle, id, q.jobs[id].(hook := Returned));
    TrackedStays(c, q, HookEnds(q, w), id, q.jobs[id].(hook := Returned));
    UpdateCount(q.workers, w, Idle);
  }

  lemma IdleLeaves(q: Queue, w: nat)
    requires WorkersOk(q) && JobsOk(q) && w < |q.workers| && !Busy(q.workers[w])
    ensures var q' := q.(workers := q.workers[w := Exited]); JobsOk(q') && WorkersOk(q')
  {
    var q' := q.(workers := q.workers[w := Exited]);
    forall i ensures (Executing(i) in q'.workers <==> Executing(i) in q.workers) &&
        (InHook(i) in q'.workers <==> InHook(i) in q.workers) {
      UpdateMembers(q.workers, w, Exited, Executing(i));
      UpdateMembers(q.workers, w, Exited, InHook(i));
    }
    forall i | i in q'.jobs ensures JobOkIn(q', i) {
      assert JobOkIn(q, i);
    }
  }

  lemma DrainedIsIdle(q: Queue, w: nat)
    requires q.unfinished == |q.queue| + CountExecuting(q.workers) && w < |q.workers| && q.workers[w].Executing?
    ensures q.unfinished > 0
  {
    UpdateCount(q.workers, w, Idle);
  }

  lemma ClockKeepsInv(c: Config, q: Queue, now: real)
    requires Inv(c, q) && now >= q.clock
    ensures Inv(c, q.(clock := now))
  {
  }

  lemma CancelKeepsInv(c: Config, q: Queue, w: nat, now: real)
    requires Inv(c, q) && Enabled(q, WorkerCancelled(w, now))
    ensures Inv(c, CancelWorker(q, w, now))
  {
    UpdateCount(q.workers, w, Exited);
    var q' := CancelWorker(q, w, now);
    match q.workers[w]
    case Executing(id) =>
      assert q.workers[w] in q.workers && JobOkIn(q, id);
      DrainedIsIdle(q, w);
      PutDownKeepsJobs(q, q', w, Exited, id, CutShort(q.jobs[id], now));
      TrackedStays(c, q, q', id, CutShort(q.jobs[id], now));
    case InHook(id) =>
      assert q.workers[w] in q.workers && JobOkIn(q, id);
      PutDownKeepsJobs(q, q', w, Exited, id, q.jobs[id].(hook := Interrupted));
      TrackedStays(c, q, q', id, q.jobs[id].(hook := Interrupted));
    case _ =>
      ClockKeepsInv(c, q, now);
      IdleLeaves(q.(clock := now), w);
  }

  lemma WaiterKeepsInv(c: Config, q: Queue, id: Id)
    requires Inv(c, q) && Enabled(q, WaiterCancelled(id))
    ensures Inv(c, WaiterLeaves(q, id))
  {
    var q' := WaiterLeaves(q, id);
    assert JobOkIn(q, id);
    forall i | i in q'.jobs ensures JobOkIn(q', i) {
      assert JobOkIn(q, i);
    }
  }

  lemma {:induction false} NoneExecuting(ws: seq<Worker>)
    requires forall w :: 0 <= w < |ws| ==> ws[w].Exited?
    ensures CountExecuting(ws) == 0
  {
    if ws != [] {
      NoneExecuting(ws[..|ws| - 1]);
    }
  }

  lemma StopKeepsInv(c: Config, q: Queue, step: Step)
    requires Inv(c, q) && Enabled(q, step)
    requires step.StopCalled? || step.JoinReturns? || step.GraceExpires? || step.StopReturns?
    ensures Inv(c, Next(c, q, step))
  {
    var q' := Next(c, q, step);
    if step.StopReturns? {
      NoneExecuting(q.workers);
    }
    forall i | i in q'.jobs ensures JobOkIn(q', i) {
      assert JobOkIn(q, i);
    }
  }

  lemma StepKeepsInv(c: Config, q: Queue, step: Step)
    requires Inv(c, q) && Enabled(q, step)
    ensures Inv(c, Next(c, q, step))
  {
    match step
    case Submit(id, identity) => if !Refuses(c, q) { EnqueueKeepsInv(c, q, id, SyncJob(identity)); }
    case SubmitAsync(id, identity, hooked, now) =>
      PruneKeepsInv(c, q, now);
      if !Refuses(c, Prune(c, q, now)) { EnqueueKeepsInv(c, Prune(c, q, now), id, AsyncJob(identity, hooked)); }
    case GetJob(now) => PruneKeepsInv(c, q, now);
    case WorkerTakes(w) => TakeKeepsInv(c, q, w);
    case WorkerFinishes(w, o, now) => FinishKeepsInv(c, q, w, o, now);
    case HookReturns(w) => HookEndsKeepsInv(c, q, w);
    case WorkerCancelled(w, now) => CancelKeepsInv(c, q, w, now);
    case WaiterCancelled(id) => WaiterKeepsInv(c, q, id);
    case _ => StopKeepsInv(c, q, step);
  }

  lemma {:induction false} FreshPool(n: nat)
    ensures CountExecuting(seq(n, _ => Idle)) == 0
  {
    if n > 0 {
      var ws: seq<Worker> := seq(n, _ => Idle);
      assert ws[..n - 1] == seq(n - 1, _ => Idle);
      FreshPool(n - 1);
    }
  }

  lemma StartedInv(c: Config)
    ensures Inv(c, Started(c))
  {
    FreshPool(c.workers);
  }

  // ---------------------------------------------------------------- the object

  class JobQueue {
    const cfg: Config
    var queue: seq<Id>
    var jobs: map<Id, Job>
    var tracked: set<Id>
    var active: int
    var unfinished: int
    var closing: bool
    var workers: seq<Worker>
    var phase: Phase
    ghost var accepted: seq<Id>
    ghost var started: seq<Id>
    ghost var clock: real

    ghost function State(): Queue
      reads this
    {
      Queue(queue, jobs, tracked, active, unfinished, closing, workers, phase, accepted, started, clock)
    }

    /** A new queue, after start(). */
    constructor (cfg: Config)
      ensures this.cfg == cfg && State() == Started(cfg)
    {
      this.cfg := cfg;
      queue, jobs, tracked := [], map[], {};
      active, unfinished, closing := 0, 0, false;
      workers, phase := seq(cfg.workers, _ => Idle), Up;
      accepted, started, clock := [], [], 0.0;
    }

    method PutJob(id: Id, job: Job) returns (ok: bool)
      modifies this
      ensures ok == !Refuses(cfg, old(State()))
      ensures State() == if ok then Enqueue(old(State()), id, job) else old(State())
    {
      if closing || (cfg.depth > 0 && |queue| >= cfg.depth) {
        return false;
      }
      queue, unfinished := queue + [id], unfinished + 1;
      jobs := jobs[id := job];
      accepted := accepted + [id];
      return true;
    }

    method Submit(id: Id, identity: string) returns (ok: bool)
      requires Enabled(State(), Step.Submit(id, identity))
      modifies this
      ensures State() == Next(cfg, old(State()), Step.Submit(id, identity))
      ensures ok == !Refuses(cfg, old(State()))
    {
      ok := PutJob(id, Job(identity, Queued, None, Pending, NoHook, 0, None));
    }

    method SubmitAsync(id: Id, identity: string, hooked: bool, now: real) returns (ok: bool)
      requires Enabled(State(), Step.SubmitAsync(id, identity, hooked, now))
      modifies this
      ensures State() == Next(cfg, old(State()), Step.SubmitAsync(id, identity, hooked, now))
      ensures ok == !Refuses(cfg, old(State()))
    {
      PruneJobs(now);
      ok := PutJob(id, Job(identity, Queued, None, NoFuture, if hooked then NotCalled else NoHook, 0, None));
      if ok {
        tracked := tracked + {id};
      }
    }

    method LookUp(id: Id, identity: string, now: real) returns (job: Option<Job>)
      requires Enabled(State(), Step.GetJob(now))
      modifies this
      ensures State() == Next(cfg, old(State()), Step.GetJob(now))
      ensures job == if Visible(State(), id, identity) then Some(jobs[id]) else None
    {
      PruneJobs(now);
      if id !in tracked || id !in jobs || jobs[id].identity != identity {
        return None;
      }
      return Some(jobs[id]);
    }

    method PruneJobs(now: real)
      modifies this
      ensures State() == Prune(cfg, old(State()), now)
    {
      var stale := set id | id in tracked && id in jobs && jobs[id].finishedAt.Some? &&
          now - jobs[id].finishedAt.value > cfg.ttl;
      tracked := tracked - stale;
      clock := now;
    }

    /** _run, from queue.get() to the await of execute() */
    method TakeJob(w: nat)
      requires Enabled(State(), WorkerTakes(w))
      modifies this
      ensures State() == Next(cfg, old(State()), WorkerTakes(w))
    {
      var id := queue[0];
      queue := queue[1..];
      active := active + 1;
      jobs := jobs[id := jobs[id].(status := Running)];
      workers := workers[w := Executing(id)];
      started := started + [id];
    }

    /** _run, from the end of execute() to the await of on_complete() or of the next job */
    method FinishJob(w: nat, o: Outcome, now: real)
      requires Enabled(State(), WorkerFinishes(w, o, now))
      modifies this
      ensures State() == Next(cfg, old(State()), WorkerFinishes(w, o, now))
    {
      var id := workers[w].id;
      var job := jobs[id];
      match o {
        case Returns(text) =>
          job := job.(result := Some(Output(text)), status := Done);
          if job.future == Pending {
            job := job.(future := Resolved(Output(text)));
          }
        case Raises(exc) =>
          job := job.(status := Error, result := Some(Failure(exc)));
          if job.future == Pending {
            job := job.(future := Raised(exc));
          }
      }
      job := job.(finishedAt := Some(now));
      active := active - 1;
      unfinished := unfinished - 1;
      if job.hook != NoHook {
        job := job.(hook := InCall, calls := job.calls + 1);
        workers := workers[w := InHook(id)];
      } else {
        workers := workers[w := Idle];
      }
      jobs := jobs[id := job];
      clock := now;
    }

    /** _run, when on_complete() has returned or raised */
    method EndHook(w: nat)
      requires Enabled(State(), HookReturns(w))
      modifies this
      ensures State() == Next(cfg, old(State()), HookReturns(w))
    {
      var id := workers[w].id;
      jobs := jobs[id := jobs[id].(hook := Returned)];
      workers := workers[w := Idle];
    }

    /** _run, when CancelledError reaches it */
    method CancelRun(w: nat, now: real)
      requires Enabled(State(), Step.WorkerCancelled(w, now))
      modifies this
      ensures State() == Next(cfg, old(State()), Step.WorkerCancelled(w, now))
    {
      if workers[w].Executing? {
        var id := workers[w].id;
        if jobs[id].future == Pending {
          jobs := jobs[id := jobs[id].(future := Cancelled)];
        }
        jobs := jobs[id := jobs[id].(finishedAt := Some(now))];
        active := active - 1;
        unfinished := unfinished - 1;
      } else if workers[w].InHook? {
        var id := workers[w].id;
        jobs := jobs[id := jobs[id].(hook := Interrupted)];
      }
      workers := workers[w := Exited];
      clock := now;
    }

    /** stop(), up to the await of the join */
    method Stop()
      requires Enabled(State(), StopCalled)
      modifies this
      ensures State() == Next(cfg, old(State()), StopCalled)
    {
      closing, phase := true, Draining;
    }
  }
}
