/** The three ways to run code, app/api/routes.py, over one rate limiter and one job queue.

    Each takes a slot of its identity in the limiter and gives it back in a different place: the
    synchronous route in its finally, the stream in the finally of its generator, the asynchronous route
    in the completion hook its job carries. One step is one stretch of code between two awaits, of any
    request or worker. A request and its job have the same id. */
module Routes {
  import opened RateLimit
  import opened Options
  import Q = JobQueues
  import J = QueueRuns

  type Id = Q.Id

  datatype AppConfig = AppConfig(limits: RateLimit.Config, queue: Q.Config, streams: nat)

  datatype Kind = Sync | Stream | Async
  /** Waiting: a synchronous request inside its try. Handed: an accepted job, its hook still to end.
      Created: a stream whose generator has not been started. Lost: nothing is left that would release. */
  datatype Stage = Waiting | Handed | Created | Streaming(slot: bool) | Released | Lost
  /** releases: how often the release for this request has run. */
  datatype Req = Req(kind: Kind, identity: string, admin: bool, stage: Stage, releases: nat)

  datatype App = App(limiter: Limiter, queue: Q.Queue, reqs: map<Id, Req>, slots: int)

  function Boot(c: AppConfig): App { App(Limiter(map[], map[]), Q.Started(c.queue), map[], c.streams) }

  /** _rl_acquire: nothing for administrators. */
  function SlotAcquire(c: AppConfig, l: Limiter, identity: string, admin: bool, now: real): (Limiter, Outcome) {
    if admin then (l, Admitted) else AcquireStep(c.limits, l, identity, now)
  }

  function SlotRelease(l: Limiter, r: Req): Limiter { if r.admin then l else ReleaseStep(l, r.identity) }

  /** The release for request id runs. */
  function Release(a: App, id: Id): App
    requires id in a.reqs
  {
    var r := a.reqs[id];
    a.(limiter := SlotRelease(a.limiter, r), reqs := a.reqs[id := r.(stage := Released, releases := r.releases + 1)])
  }

  datatype Step =
    | PostExecute(id: Id, identity: string, admin: bool, now: real)
    | PostStream(id: Id, identity: string, admin: bool, now: real)
    | PostJob(id: Id, identity: string, admin: bool, now: real)
    | ExecuteLeaves(id: Id)
    | StreamStarts(id: Id)
    | StreamTakesSlot(id: Id)
    | StreamEnds(id: Id)
    | StreamDropped(id: Id)
    | QueueMoves(step: Q.Step)

  predicate Fresh(a: App, id: Id) { id !in a.reqs && id !in a.queue.jobs }

  predicate InStage(a: App, id: Id, kind: Kind, stage: Stage) {
    id in a.reqs && a.reqs[id].kind == kind && a.reqs[id].stage == stage
  }

  predicate Enabled(a: App, step: Step) {
    match step
    case PostExecute(id, _, _, _) => Fresh(a, id)
    case PostStream(id, _, _, _) => Fresh(a, id)
    case PostJob(id, _, _, now) => Fresh(a, id) && now >= a.queue.clock
    case ExecuteLeaves(id) => InStage(a, id, Sync, Waiting) && id in a.queue.jobs && !a.queue.jobs[id].future.Pending?
    case StreamStarts(id) => InStage(a, id, Stream, Created)
    case StreamTakesSlot(id) => InStage(a, id, Stream, Streaming(false)) && a.slots > 0
    case StreamEnds(id) => InStage(a, id, Stream, Streaming(false)) || InStage(a, id, Stream, Streaming(true))
    case StreamDropped(id) => InStage(a, id, Stream, Created)
    case QueueMoves(s) =>
      Q.Enabled(a.queue, s) && !s.Submit? && !s.SubmitAsync? &&
      (J.Touched(a.queue, s).Some? ==> J.Touched(a.queue, s).value in a.reqs)
  }

  /** What a step of the queue means for the request whose job it touches: the hook's finally releases,
      whether the hook ends or is cancelled, and a job cancelled while it runs never gets to its hook. */
  function QueueStep(c: AppConfig, a: App, s: Q.Step): App
    requires Enabled(a, QueueMoves(s))
  {
    var b := a.(queue := Q.Next(c.queue, a.queue, s));
    match s
    case HookReturns(w) => Release(b, a.queue.workers[w].id)
    case WorkerCancelled(w, _) =>
      (match a.queue.workers[w]
       case InHook(id) => Release(b, id)
       case Executing(id) => if a.reqs[id].kind == Async then b.(reqs := b.reqs[id := b.reqs[id].(stage := Lost)])
           else b
       case _ => b)
    case _ => b
  }

  function Next(c: AppConfig, a: App, step: Step): App
    requires Enabled(a, step)
  {
    match step
    case PostExecute(id, identity, admin, now) =>
      var (l, out) := SlotAcquire(c, a.limiter, identity, admin, now);
      if out.Limited? then a.(limiter := l)
      else
        var b := App(l, Q.Next(c.queue, a.queue, Q.Submit(id, identity)),
            a.reqs[id := Req(Sync, identity, admin, Waiting, 0)], a.slots);
        if Q.Refuses(c.queue, a.queue) then Release(b, id) else b
    case PostStream(id, identity, admin, now) =>
      var (l, out) := SlotAcquire(c, a.limiter, identity, admin, now);
      if out.Limited? then a.(limiter := l)
      else a.(limiter := l, reqs := a.reqs[id := Req(Stream, identity, admin, Created, 0)])
    case PostJob(id, identity, admin, now) =>
      var (l, out) := SlotAcquire(c, a.limiter, identity, admin, now);
      if out.Limited? then a.(limiter := l)
      else
        var b := App(l, Q.Next(c.queue, a.queue, Q.SubmitAsync(id, identity, true, now)),
                     a.reqs[id := Req(Async, identity, admin, Handed, 0)], a.slots);
        if Q.Refuses(c.queue, a.queue) then Release(b, id) else b
    case ExecuteLeaves(id) => Release(a, id)
    case StreamStarts(id) => a.(reqs := a.reqs[id := a.reqs[id].(stage := Streaming(false))])
    case StreamTakesSlot(id) => a.(reqs := a.reqs[id := a.reqs[id].(stage := Streaming(true))], slots := a.slots - 1)
    case StreamEnds(id) => Release(a.(slots := a.slots + if a.reqs[id].stage == Streaming(true) then 1 else 0), id)
    case StreamDropped(id) => a.(reqs := a.reqs[id := a.reqs[id].(stage := Lost)])
    case QueueMoves(s) => QueueStep(c, a, s)
  }

  // ---------------------------------------------------------------- the invariant

  /** r counts against identity: it was admitted and has not released. */
  predicate Holds(r: Req, identity: string) { !r.admin && r.identity == identity && r.stage != Released }

  function HeldBy(reqs: map<Id, Req>, identity: string): set<Id> {
    set id | id in reqs && Holds(reqs[id], identity)
  }

  function WithSlot(reqs: map<Id, Req>): set<Id> {
    set id | id in reqs && reqs[id].stage == Streaming(true)
  }

  /** What the stage of a request says about its job. */
  predicate LinkOk(r: Req, jobs: map<Id, Q.Job>, id: Id) {
    && r.releases == (if r.stage == Released then 1 else 0)
    && match r.kind
       case Stream => id !in jobs && !r.stage.Waiting? && !r.stage.Handed?
       case Sync =>
         && (r.stage == Waiting || r.stage == Released)
         && (r.stage == Waiting ==> id in jobs)
         && (id in jobs ==> !jobs[id].future.NoFuture? && jobs[id].hook.NoHook?)
       case Async =>
         if id in jobs then AsyncStage(r.stage, jobs[id]) else r.stage == Released
  }

  predicate AsyncStage(stage: Stage, j: Q.Job) {
    && j.future.NoFuture? && !j.hook.NoHook?
    && (stage == Released || stage == Handed || stage == Lost)
    && (stage == Released <==> j.hook.Returned? || j.hook.Interrupted?)
    && (stage == Lost <==> j.status.Running? && j.finishedAt.Some?)
  }

  ghost predicate Balanced(a: App) {
    forall i :: Count(a.limiter, i) == |HeldBy(a.reqs, i)|
  }

  ghost predicate Linked(a: App) {
    && (forall id :: id in a.reqs ==> LinkOk(a.reqs[id], a.queue.jobs, id))
    && (forall id :: id in a.queue.jobs ==> id in a.reqs)
  }

  ghost predicate Local(c: AppConfig, a: App) {
    && Tidy(c.limits, a.limiter)
    && Balanced(a)
    && Linked(a)
    && a.slots + |WithSlot(a.reqs)| == c.streams
    && a.slots >= 0
  }

  ghost predicate Inv(c: AppConfig, a: App) {
    Q.Inv(c.queue, a.queue) && Local(c, a)
  }

  // ---------------------------------------------------------------- every step keeps it

  lemma OneElement(s: set<Id>, t: set<Id>, id: Id)
    requires s - {id} == t - {id}
    ensures |t| == |s| - (if id in s then 1 else 0) + (if id in t then 1 else 0)
  {
    var rest := s - {id};
    assert id in s ==> s == rest + {id};
    assert id !in s ==> s == rest;
    assert id in t ==> t == rest + {id};
    assert id !in t ==> t == rest;
  }

  lemma HeldUpdate(reqs: map<Id, Req>, id: Id, r: Req, i: string)
    ensures |HeldBy(reqs[id := r], i)| ==
            |HeldBy(reqs, i)| - (if id in reqs && Holds(reqs[id], i) then 1 else 0) + (if Holds(r, i) then 1 else 0)
  {
    OneElement(HeldBy(reqs, i), HeldBy(reqs[id := r], i), id);
  }

  lemma SlotUpdate(reqs: map<Id, Req>, id: Id, r: Req)
    ensures |WithSlot(reqs[id := r])| ==
            |WithSlot(reqs)| - (if id in reqs && reqs[id].stage == Streaming(true) then 1 else 0)
            + (if r.stage == Streaming(true) then 1 else 0)
  {
    OneElement(WithSlot(reqs), WithSlot(reqs[id := r]), id);
  }

  lemma AcquireCounts(c: AppConfig, l: Limiter, identity: string, admin: bool, now: real)
    requires Tidy(c.limits, l)
    ensures var (l', out) := SlotAcquire(c, l, identity, admin, now);
            && Tidy(c.limits, l')
            && forall i :: Count(l', i) == Count(l, i) + if !admin && i == identity && out.Admitted? then 1 else 0
  {
    if !admin {
      AcquireKeepsTidy(c.limits, l, identity, now);
    }
  }

  /** An admission: the count goes up by one, and so does the number of requests that hold. */
  lemma AdmitKeepsBalance(c: AppConfig, a: App, l: Limiter, id: Id, r: Req)
    requires Balanced(a) && id !in a.reqs && r.stage != Released && r.stage != Streaming(true)
    requires forall i :: Count(l, i) == Count(a.limiter, i) + if !r.admin && i == r.identity then 1 else 0
    ensures Balanced(a.(limiter := l, reqs := a.reqs[id := r]))
    ensures |WithSlot(a.reqs[id := r])| == |WithSlot(a.reqs)|
  {
    SlotUpdate(a.reqs, id, r);
    forall i ensures Count(l, i) == |HeldBy(a.reqs[id := r], i)| {
      HeldUpdate(a.reqs, id, r, i);
    }
  }

  /** A release: both go down by one, the request having held until now. */
  lemma ReleaseKeepsBalance(c: AppConfig, a: App, id: Id)
    requires Tidy(c.limits, a.limiter) && Balanced(a) && id in a.reqs && a.reqs[id].stage != Released
    ensures Tidy(c.limits, Release(a, id).limiter) && Balanced(Release(a, id))
    ensures |WithSlot(Release(a, id).reqs)| == |WithSlot(a.reqs)| - if a.reqs[id].stage == Streaming(true) then 1 else 0
  {
    var r := a.reqs[id];
    var r' := r.(stage := Released, releases := r.releases + 1);
    SlotUpdate(a.reqs, id, r');
    if !r.admin {
      ReleaseKeepsTidy(c.limits, a.limiter, r.identity);
      assert id in HeldBy(a.reqs, r.identity);
    }
    forall i ensures Count(Release(a, id).limiter, i) == |HeldBy(a.reqs[id := r'], i)| {
      HeldUpdate(a.reqs, id, r', i);
    }
  }

  /** A change of stage that neither admits nor releases. */
  lemma MoveKeepsBalance(a: App, id: Id, stage: Stage)
    requires Balanced(a) && id in a.reqs && a.reqs[id].stage != Released && stage != Released
    ensures Balanced(a.(reqs := a.reqs[id := a.reqs[id].(stage := stage)]))
    ensures |WithSlot(a.reqs[id := a.reqs[id].(stage := stage)])| ==
            |WithSlot(a.reqs)| - (if a.reqs[id].stage == Streaming(true) then 1 else 0) +
                (if stage == Streaming(true) then 1 else 0)
  {
    var r' := a.reqs[id].(stage := stage);
    SlotUpdate(a.reqs, id, r');
    forall i ensures Count(a.limiter, i) == |HeldBy(a.reqs[id := r'], i)| {
      HeldUpdate(a.reqs, id, r', i);
    }
  }

  lemma PostKeepsLinks(a: App, id: Id, r: Req, job: Q.Job)
    requires Linked(a) && Fresh(a, id) && LinkOk(r, map[id := job], id)
    ensures Linked(a.(queue := a.queue.(jobs := a.queue.jobs[id := job]), reqs := a.reqs[id := r]))
  {
  }

  /** Linked looks at the jobs only. */
  lemma LinkedByJobs(a: App, b: App)
    requires Linked(a) && b.reqs == a.reqs && b.queue.jobs == a.queue.jobs
    ensures Linked(b)
  {
  }

  ghost predicate Admits(l: Limiter, a: App, r: Req) {
    forall i :: Count(l, i) == Count(a.limiter, i) + if !r.admin && i == r.identity then 1 else 0
  }

  /** The queue takes the job: the request stands. */
  lemma TakenKeepsLocal(c: AppConfig, a: App, l: Limiter, id: Id, r: Req, q: Q.Queue, job: Q.Job)
    requires Local(c, a) && Fresh(a, id) && Tidy(c.limits, l) && Admits(l, a, r)
    requires r.stage == Waiting || r.stage == Handed
    requires q.jobs == a.queue.jobs[id := job] && LinkOk(r, map[id := job], id)
    ensures Local(c, App(l, q, a.reqs[id := r], a.slots))
  {
    AdmitKeepsBalance(c, a, l, id, r);
    PostKeepsLinks(a, id, r, job);
    LinkedByJobs(a.(queue := a.queue.(jobs := a.queue.jobs[id := job]), reqs := a.reqs[id := r]),
        App(l, q, a.reqs[id := r], a.slots));
  }

  lemma RefusedKeepsBalance(c: AppConfig, a: App, b: App, id: Id, r: Req)
    requires Balanced(a) && id !in a.reqs && Tidy(c.limits, b.limiter) && Admits(b.limiter, a, r)
    requires b.reqs == a.reqs[id := r] && (r.stage == Waiting || r.stage == Handed)
    ensures Tidy(c.limits, Release(b, id).limiter) && Balanced(Release(b, id))
    ensures |WithSlot(Release(b, id).reqs)| == |WithSlot(a.reqs)|
  {
    AdmitKeepsBalance(c, a, b.limiter, id, r);
    BalanceByReqs(a.(limiter := b.limiter, reqs := b.reqs), b);
    ReleaseKeepsBalance(c, b, id);
  }

  lemma RefusedLinks(a: App, b: App, id: Id, r: Req)
    requires Linked(a) && Fresh(a, id) && b.queue.jobs == a.queue.jobs && b.reqs == a.reqs[id := r]
    requires r.stage == Released && r.releases == 1 && (r.kind == Sync || r.kind == Async)
    ensures Linked(b)
  {
  }

  /** The queue refuses it: the slot goes back at once. */
  lemma RefusedKeepsLocal(c: AppConfig, a: App, l: Limiter, id: Id, r: Req, q: Q.Queue)
    requires Local(c, a) && Fresh(a, id) && Tidy(c.limits, l) && Admits(l, a, r)
    requires (r.stage == Waiting && r.kind == Sync) || (r.stage == Handed && r.kind == Async)
    requires q.jobs == a.queue.jobs && r.releases == 0
    ensures Local(c, Release(App(l, q, a.reqs[id := r], a.slots), id))
  {
    var b, r' := App(l, q, a.reqs[id := r], a.slots), r.(stage := Released, releases := 1);
    var end := Release(b, id);
    RefusedKeepsBalance(c, a, b, id, r);
    assert end.reqs == a.reqs[id := r'] && end.queue == q && end.slots == a.slots;
    RefusedLinks(a, end, id, r');
  }

  /** Balance looks at the limiter and the requests only. */
  lemma BalanceByReqs(a: App, b: App)
    requires Balanced(a) && b.limiter == a.limiter && b.reqs == a.reqs
    ensures Balanced(b)
  {
  }

  lemma PostExecuteKeepsLocal(c: AppConfig, a: App, id: Id, identity: string, admin: bool, now: real)
    requires Local(c, a) && Enabled(a, PostExecute(id, identity, admin, now))
    ensures Local(c, Next(c, a, PostExecute(id, identity, admin, now)))
  {
    AcquireCounts(c, a.limiter, identity, admin, now);
    var (l, out) := SlotAcquire(c, a.limiter, identity, admin, now);
    if out.Admitted? {
      var r, q := Req(Sync, identity, admin, Waiting, 0), Q.Next(c.queue, a.queue, Q.Submit(id, identity));
      if Q.Refuses(c.queue, a.queue) {
        RefusedKeepsLocal(c, a, l, id, r, q);
      } else {
        TakenKeepsLocal(c, a, l, id, r, q, Q.SyncJob(identity));
      }
    }
  }

  lemma PostJobKeepsLocal(c: AppConfig, a: App, id: Id, identity: string, admin: bool, now: real)
    requires Local(c, a) && Enabled(a, PostJob(id, identity, admin, now))
    ensures Local(c, Next(c, a, PostJob(id, identity, admin, now)))
  {
    AcquireCounts(c, a.limiter, identity, admin, now);
    var (l, out) := SlotAcquire(c, a.limiter, identity, admin, now);
    if out.Admitted? {
      var r, q := Req(Async, identity, admin, Handed, 0),
          Q.Next(c.queue, a.queue, Q.SubmitAsync(id, identity, true, now));
      if Q.Refuses(c.queue, a.queue) {
        RefusedKeepsLocal(c, a, l, id, r, q);
      } else {
        TakenKeepsLocal(c, a, l, id, r, q, Q.AsyncJob(identity, true));
      }
    }
  }

  lemma PostStreamKeepsLocal(c: AppConfig, a: App, id: Id, identity: string, admin: bool, now: real)
    requires Local(c, a) && Enabled(a, PostStream(id, identity, admin, now))
    ensures Local(c, Next(c, a, PostStream(id, identity, admin, now)))
  {
    AcquireCounts(c, a.limiter, identity, admin, now);
    var (l, out) := SlotAcquire(c, a.limiter, identity, admin, now);
    if out.Admitted? {
      var r := Req(Stream, identity, admin, Created, 0);
      AdmitKeepsBalance(c, a, l, id, r);
    }
  }

  lemma ReleaseKeepsLinks(a: App, id: Id)
    requires Linked(a) && id in a.reqs && a.reqs[id].stage != Released && a.reqs[id].kind != Async
    ensures Linked(Release(a, id))
  {
  }

  /** Balance and links do not look at the slots. */
  lemma SlotsDoNotMatter(a: App, slots: int)
    requires Balanced(a) && Linked(a)
    ensures Balanced(a.(slots := slots)) && Linked(a.(slots := slots))
  {
    LinkedByJobs(a, a.(slots := slots));
  }

  /** A release, with the stream slot given back if there is one. */
  lemma ReleaseKeepsLocal(c: AppConfig, a: App, id: Id, slots: int)
    requires Local(c, a) && id in a.reqs && a.reqs[id].stage != Released && a.reqs[id].kind != Async
    requires slots == a.slots + if a.reqs[id].stage == Streaming(true) then 1 else 0
    ensures Local(c, Release(a.(slots := slots), id))
  {
    ReleaseKeepsBalance(c, a, id);
    ReleaseKeepsLinks(a, id);
    SlotsDoNotMatter(Release(a, id), slots);
    assert Release(a.(slots := slots), id) == Release(a, id).(slots := slots);
  }

  lemma StepReleases(c: AppConfig, a: App, step: Step)
    requires Local(c, a) && Enabled(a, step) && (step.ExecuteLeaves? || step.StreamEnds?)
    ensures Local(c, Next(c, a, step))
  {
    var id := step.id;
    if step.ExecuteLeaves? {
      ReleaseKeepsLocal(c, a, id, a.slots);
      assert a.(slots := a.slots) == a;
    } else if a.reqs[id].stage == Streaming(true) {
      ReleaseKeepsLocal(c, a, id, a.slots + 1);
    } else {
      ReleaseKeepsLocal(c, a, id, a.slots);
    }
  }

  lemma StreamMovesKeepLocal(c: AppConfig, a: App, step: Step)
    requires Local(c, a) && Enabled(a, step) && (step.StreamStarts? || step.StreamTakesSlot? || step.StreamDropped?)
    ensures Local(c, Next(c, a, step))
  {
    MoveKeepsBalance(a, step.id, Next(c, a, step).reqs[step.id].stage);
  }

  // the steps of the queue

  ghost predicate LinkedBut(reqs: map<Id, Req>, jobs: map<Id, Q.Job>, id: Id) {
    && (forall i :: i in reqs && i != id ==> LinkOk(reqs[i], jobs, i))
    && (forall i :: i in jobs ==> i in reqs)
  }

  lemma OthersStayLinked(c: AppConfig, a: App, s: Q.Step, id: Id)
    requires Linked(a) && Enabled(a, QueueMoves(s)) && J.Touched(a.queue, s) == Some(id) && id in a.queue.jobs
    ensures LinkedBut(a.reqs, Q.Next(c.queue, a.queue, s).jobs, id)
  {
    var jobs, jobs' := a.queue.jobs, Q.Next(c.queue, a.queue, s).jobs;
    J.OthersAreUntouched(c.queue, a.queue, s);
    OneJobChanges(c, a, s, id);
    forall i | i in a.reqs && i != id ensures LinkOk(a.reqs[i], jobs', i) {
      assert LinkOk(a.reqs[i], jobs, i);
      assert i in jobs' <==> i in jobs;
    }
  }

  lemma OneJobChanges(c: AppConfig, a: App, s: Q.Step, id: Id)
    requires Enabled(a, QueueMoves(s)) && J.Touched(a.queue, s) == Some(id) && id in a.queue.jobs
    ensures Q.Next(c.queue, a.queue, s).jobs.Keys == a.queue.jobs.Keys
  {
  }

  /** The job touched, for the steps after which its request still holds as before. */
  lemma TouchedStaysLinked(c: AppConfig, a: App, s: Q.Step, id: Id)
    requires Linked(a) && Enabled(a, QueueMoves(s)) && J.Touched(a.queue, s) == Some(id)
    requires id in a.queue.jobs && J.TouchedLife(a.queue, s, a.queue.jobs[id])
    requires s.WorkerTakes? || s.WorkerFinishes? || s.WaiterCancelled?
    ensures LinkOk(a.reqs[id], Q.Next(c.queue, a.queue, s).jobs, id)
  {
    assert LinkOk(a.reqs[id], a.queue.jobs, id);
  }

  lemma HookReleases(c: AppConfig, a: App, s: Q.Step, w: nat, id: Id)
    requires Local(c, a) && Enabled(a, QueueMoves(s)) && J.Touched(a.queue, s) == Some(id)
    requires id in a.queue.jobs && J.TouchedLife(a.queue, s, a.queue.jobs[id])
    requires (s == Q.HookReturns(w) || (s.WorkerCancelled? && s.w == w)) && a.queue.workers[w] == Q.InHook(id)
    ensures Local(c, QueueStep(c, a, s))
  {
    assert LinkOk(a.reqs[id], a.queue.jobs, id);
    OthersStayLinked(c, a, s, id);
    var b := a.(queue := Q.Next(c.queue, a.queue, s));
    ReleaseKeepsBalance(c, b, id);
    assert LinkOk(Release(b, id).reqs[id], b.queue.jobs, id);
  }

  lemma CancelledRunLoses(c: AppConfig, a: App, s: Q.Step, id: Id)
    requires Local(c, a) && Enabled(a, QueueMoves(s)) && J.Touched(a.queue, s) == Some(id)
    requires id in a.queue.jobs && J.TouchedLife(a.queue, s, a.queue.jobs[id])
    requires s.WorkerCancelled? && a.queue.workers[s.w] == Q.Executing(id)
    ensures Local(c, QueueStep(c, a, s))
  {
    assert LinkOk(a.reqs[id], a.queue.jobs, id);
    OthersStayLinked(c, a, s, id);
    if a.reqs[id].kind == Async {
      MoveKeepsBalance(a, id, Lost);
    }
    var b := QueueStep(c, a, s);
    assert LinkOk(b.reqs[id], b.queue.jobs, id);
  }

  lemma QuietMoveKeepsLocal(c: AppConfig, a: App, s: Q.Step)
    requires Local(c, a) && Enabled(a, QueueMoves(s))
    requires !s.HookReturns? && !(s.WorkerCancelled? && Q.Busy(a.queue.workers[s.w]))
    requires forall id :: J.Touched(a.queue, s) == Some(id) ==>
             id in a.queue.jobs && J.TouchedLife(a.queue, s, a.queue.jobs[id])
    ensures Local(c, QueueStep(c, a, s))
  {
    var touched := J.Touched(a.queue, s);
    if touched.Some? {
      TouchedStaysLinked(c, a, s, touched.value);
      OthersStayLinked(c, a, s, touched.value);
    } else {
      LinkedByJobs(a, a.(queue := Q.Next(c.queue, a.queue, s)));
    }
  }

  lemma QueueMovesKeepLocal(c: AppConfig, a: App, s: Q.Step)
    requires Inv(c, a) && Enabled(a, QueueMoves(s))
    ensures Local(c, QueueStep(c, a, s))
  {
    var touched := J.Touched(a.queue, s);
    if touched.Some? {
      J.TouchedIsAlive(c.queue, a.queue, s, touched.value);
    }
    if s.HookReturns? || (s.WorkerCancelled? && a.queue.workers[s.w].InHook?) {
      HookReleases(c, a, s, s.w, touched.value);
    } else if s.WorkerCancelled? && a.queue.workers[s.w].Executing? {
      CancelledRunLoses(c, a, s, touched.value);
    } else {
      QuietMoveKeepsLocal(c, a, s);
    }
  }

  lemma StepKeepsLocal(c: AppConfig, a: App, step: Step)
    requires Inv(c, a) && Enabled(a, step)
    ensures Local(c, Next(c, a, step))
  {
    match step
    case PostExecute(id, identity, admin, now) => PostExecuteKeepsLocal(c, a, id, identity, admin, now);
    case PostStream(id, identity, admin, now) => PostStreamKeepsLocal(c, a, id, identity, admin, now);
    case PostJob(id, identity, admin, now) => PostJobKeepsLocal(c, a, id, identity, admin, now);
    case ExecuteLeaves(_) => StepReleases(c, a, step);
    case StreamEnds(_) => StepReleases(c, a, step);
    case QueueMoves(s) => QueueMovesKeepLocal(c, a, s);
    case _ => StreamMovesKeepLocal(c, a, step);
  }

  /** The step the queue takes, if it takes one. */
  lemma QueueKeepsInv(c: AppConfig, a: App, step: Step)
    requires Q.Inv(c.queue, a.queue) && Enabled(a, step)
    ensures Q.Inv(c.queue, Next(c, a, step).queue)
  {
    match step
    case PostExecute(id, identity, _, _) => Q.StepKeepsInv(c.queue, a.queue, Q.Submit(id, identity));
    case PostJob(id, identity, _, now) => Q.StepKeepsInv(c.queue, a.queue, Q.SubmitAsync(id, identity, true, now));
    case QueueMoves(s) => Q.StepKeepsInv(c.queue, a.queue, s);
    case _ =>
  }

  lemma StepKeepsInv(c: AppConfig, a: App, step: Step)
    requires Inv(c, a) && Enabled(a, step)
    ensures Inv(c, Next(c, a, step))
  {
    StepKeepsLocal(c, a, step);
    QueueKeepsInv(c, a, step);
  }

  lemma BootInv(c: AppConfig)
    ensures Inv(c, Boot(c))
  {
    Q.StartedInv(c.queue);
  }

  // ---------------------------------------------------------------- every run

  function After(c: AppConfig, a: App, steps: seq<Step>): Option<App>
    decreases |steps|
  {
    if steps == [] then Some(a)
    else if !Enabled(a, steps[0]) then None
    else After(c, Next(c, a, steps[0]), steps[1..])
  }

  lemma {:induction false} RunKeepsInv(c: AppConfig, a: App, steps: seq<Step>, a': App)
    requires Inv(c, a) && After(c, a, steps) == Some(a')
    ensures Inv(c, a')
    decreases |steps|
  {
    if steps != [] {
      StepKeepsInv(c, a, steps[0]);
      RunKeepsInv(c, Next(c, a, steps[0]), steps[1..], a');
    }
  }

  lemma Reachable(c: AppConfig, steps: seq<Step>, a: App)
    requires After(c, Boot(c), steps) == Some(a)
    ensures Inv(c, a)
  {
    BootInv(c);
    RunKeepsInv(c, Boot(c), steps, a);
  }

  /** The streaming semaphore: its free slots and the streams holding one add up to its size. */
  lemma StreamSlotsAreConserved(c: AppConfig, steps: seq<Step>, a: App)
    requires After(c, Boot(c), steps) == Some(a)
    ensures 0 <= a.slots && a.slots + |WithSlot(a.reqs)| == c.streams
  {
    Reachable(c, steps, a);
  }
}
