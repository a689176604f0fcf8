/** Who gives the rate-limit slot back in the end, over every run of app/api/routes.py: which requests are still
    to release, which never will, and that the limiter counts exactly these two. */
module Leaks {
  import opened RateLimit
  import opened Options
  import opened Routes
  import Q = JobQueues
  import J = QueueRuns
  import K = Hooks

  /** A request that has not released and never will: a stream dropped before it was started, or an
      asynchronous job whose hook no worker will reach. */
  predicate Leaked(c: AppConfig, a: App, id: Id) {
    InStage(a, id, Stream, Lost) || (id in a.reqs && a.reqs[id].kind == Async && K.Abandoned(c.queue, a.queue, id))
  }

  /** A request whose release is still to run: a synchronous one inside its try, a stream not past its
      finally, an accepted job whose hook has not ended and can be reached. */
  predicate Live(c: AppConfig, a: App, id: Id) {
    id in a.reqs &&
    match a.reqs[id].kind
    case Sync => a.reqs[id].stage == Waiting
    case Stream => a.reqs[id].stage == Created || a.reqs[id].stage.Streaming?
    case Async =>
      id in a.queue.jobs && (a.queue.jobs[id].hook.NotCalled? || a.queue.jobs[id].hook.InCall?) &&
      !K.Abandoned(c.queue, a.queue, id)
  }

  function Owners(c: AppConfig, a: App, identity: string): set<Id> {
    set id | id in a.reqs && !a.reqs[id].admin && a.reqs[id].identity == identity &&
        (Live(c, a, id) || Leaked(c, a, id))
  }

  /** A job leaks only once stop() is cancelling, or when there are no workers at all. */
  predicate MayLeak(c: AppConfig, a: App, id: Id) {
    InStage(a, id, Stream, Lost) || Q.Stopping(a.queue.phase) || c.queue.workers == 0
  }

  lemma StageIsOwnership(c: AppConfig, a: App, id: Id)
    requires Inv(c, a) && id in a.reqs
    ensures a.reqs[id].stage != Released <==> Live(c, a, id) || Leaked(c, a, id)
    ensures !(Live(c, a, id) && Leaked(c, a, id))
    ensures Leaked(c, a, id) ==> MayLeak(c, a, id)
    ensures a.reqs[id].releases == if Live(c, a, id) || Leaked(c, a, id) then 0 else 1
  {
    assert LinkOk(a.reqs[id], a.queue.jobs, id);
    if id in a.queue.jobs {
      assert Q.JobOkIn(a.queue, id);
    }
  }

  /** In every run the in-flight count of an identity is the number of its requests that are live or leaked. */
  lemma SlotsAreConserved(c: AppConfig, steps: seq<Step>, a: App, identity: string)
    requires After(c, Boot(c), steps) == Some(a)
    ensures Count(a.limiter, identity) == |Owners(c, a, identity)|
    ensures c.limits.maxInflight > 0 ==> |Owners(c, a, identity)| <= c.limits.maxInflight
    ensures forall id :: Leaked(c, a, id) ==> MayLeak(c, a, id)
  {
    Reachable(c, steps, a);
    forall id | id in a.reqs
      ensures a.reqs[id].stage != Released <==> Live(c, a, id) || Leaked(c, a, id)
      ensures Leaked(c, a, id) ==> MayLeak(c, a, id)
    {
      StageIsOwnership(c, a, id);
    }
    assert Owners(c, a, identity) == HeldBy(a.reqs, identity);
  }

  /** Every admitted request gives its slot back at most once, and has given it back exactly when it is
      neither live nor leaked; when nothing is, the limiter's counts are empty. */
  lemma EachSlotIsReleasedOnce(c: AppConfig, steps: seq<Step>, a: App)
    requires After(c, Boot(c), steps) == Some(a)
    ensures forall id :: id in a.reqs ==> a.reqs[id].releases == if Live(c, a, id) || Leaked(c, a, id) then 0 else 1
    ensures (forall id :: id in a.reqs ==> !Live(c, a, id) && !Leaked(c, a, id)) ==> a.limiter.inflight == map[]
  {
    Reachable(c, steps, a);
    forall id | id in a.reqs ensures a.reqs[id].releases == if Live(c, a, id) || Leaked(c, a, id) then 0 else 1 {
      StageIsOwnership(c, a, id);
    }
    if forall id :: id in a.reqs ==> !Live(c, a, id) && !Leaked(c, a, id) {
      forall i ensures i !in a.limiter.inflight {
        SlotsAreConserved(c, steps, a, i);
        assert Owners(c, a, i) == {};
      }
    }
  }

  predicate Posts(step: Step) { step.PostExecute? || step.PostJob? || step.PostStream? }

  /** The queue, if the request needs it, is closing or at its depth. */
  predicate Refuses(c: AppConfig, a: App, step: Step) {
    !step.PostStream? && (a.queue.closing || (c.queue.depth > 0 && |a.queue.queue| >= c.queue.depth))
  }

  function Verdict(c: AppConfig, a: App, step: Step): Outcome
    requires Posts(step)
  {
    if step.admin then Admitted else AcquireStep(c.limits, a.limiter, step.identity, step.now).1
  }

  /** A request counts against its identity exactly when it is not an administrator's, the limiter admits it and
      the queue, if it needs one, does not refuse it: a refusal by the queue costs nothing. */
  lemma PostCounts(c: AppConfig, steps: seq<Step>, a: App, step: Step, i: string)
    requires After(c, Boot(c), steps) == Some(a) && Enabled(a, step) && Posts(step)
    ensures Count(Next(c, a, step).limiter, i) == Count(a.limiter, i) +
            if !step.admin && Verdict(c, a, step).Admitted? && !Refuses(c, a, step) && i == step.identity then 1 else 0
  {
    Reachable(c, steps, a);
    AcquireCounts(c, a.limiter, step.identity, step.admin, step.now);
    var (l, out) := SlotAcquire(c, a.limiter, step.identity, step.admin, step.now);
    if !step.admin {
      ReleaseKeepsTidy(c.limits, l, step.identity);
    }
  }

  /** Exactly the admitted requests are known from then on, and have a job exactly when the queue takes it. */
  lemma PostIsRecorded(c: AppConfig, a: App, step: Step)
    requires Enabled(a, step) && Posts(step)
    ensures var b := Next(c, a, step);
            && (step.id in b.reqs <==> Verdict(c, a, step).Admitted?)
            && (step.id in b.reqs ==> b.reqs[step.id].identity == step.identity && b.reqs[step.id].admin == step.admin)
            && (step.id in b.queue.jobs <==>
                Verdict(c, a, step).Admitted? && !Refuses(c, a, step) && !step.PostStream?)
  {
  }

  // ---------------------------------------------------------------- who releases in the end

  predicate Releases(c: AppConfig, a: App, more: seq<Step>, id: Id) {
    var end := After(c, a, more); end.Some? && id in end.value.reqs && end.value.reqs[id].releases > 0
  }

  lemma StepKeepsLost(c: AppConfig, a: App, step: Step, id: Id)
    requires Linked(a) && Enabled(a, step) && InStage(a, id, Stream, Lost)
    ensures InStage(Next(c, a, step), id, Stream, Lost)
  {
    assert LinkOk(a.reqs[id], a.queue.jobs, id);
  }

  /** What a step does to the queue, if anything. */
  function QueueMove(step: Step): Option<Q.Step> {
    match step
    case PostExecute(id, identity, _, _) => Some(Q.Submit(id, identity))
    case PostJob(id, identity, _, now) => Some(Q.SubmitAsync(id, identity, true, now))
    case QueueMoves(s) => Some(s)
    case _ => None
  }

  lemma StepKeepsAbandoned(c: AppConfig, a: App, step: Step, id: Id)
    requires Inv(c, a) && Enabled(a, step) && K.Abandoned(c.queue, a.queue, id)
    ensures K.Abandoned(c.queue, Next(c, a, step).queue, id)
  {
    if Next(c, a, step).queue != a.queue {
      K.StepKeepsAbandoned(c.queue, a.queue, QueueMove(step).value, id);
    }
  }

  lemma {:induction false} LeakedForGood(c: AppConfig, a: App, more: seq<Step>, a': App, id: Id)
    requires Inv(c, a) && After(c, a, more) == Some(a') && Leaked(c, a, id)
    ensures Leaked(c, a', id) && Inv(c, a')
    decreases |more|
  {
    if more != [] {
      StepKeepsInv(c, a, more[0]);
      if InStage(a, id, Stream, Lost) {
        StepKeepsLost(c, a, more[0], id);
      } else {
        StepKeepsAbandoned(c, a, more[0], id);
      }
      LeakedForGood(c, Next(c, a, more[0]), more[1..], a', id);
    }
  }

  function Moves(more: seq<Q.Step>): seq<Step> {
    if more == [] then [] else [QueueMoves(more[0])] + Moves(more[1..])
  }

  lemma AfterCons(c: AppConfig, a: App, step: Step, rest: seq<Step>)
    requires Enabled(a, step)
    ensures After(c, a, [step] + rest) == After(c, Next(c, a, step), rest)
  {
    assert ([step] + rest)[1..] == rest;
  }

  /** What the queue can do by itself it can do in the server. */
  lemma {:induction false} QueueRunLifts(c: AppConfig, a: App, more: seq<Q.Step>, q: Q.Queue)
    requires Inv(c, a) && J.After(c.queue, a.queue, more) == Some(q) && K.PostsNothing(more)
    ensures After(c, a, Moves(more)).Some? && After(c, a, Moves(more)).value.queue == q
    ensures Inv(c, After(c, a, Moves(more)).value)
    decreases |more|
  {
    if more != [] {
      StepKeepsInv(c, a, QueueMoves(more[0]));
      QueueRunLifts(c, Next(c, a, QueueMoves(more[0])), more[1..], q);
      AfterCons(c, a, QueueMoves(more[0]), Moves(more[1..]));
    }
  }

  lemma JobIsReleased(c: AppConfig, a: App, id: Id) returns (more: seq<Step>)
    requires Inv(c, a) && K.PoolOk(a.queue) && id in a.reqs && a.reqs[id].kind == Async && Live(c, a, id)
    ensures Releases(c, a, more, id)
  {
    var moves := K.HookIsReached(c.queue, a.queue, id);
    var q := J.After(c.queue, a.queue, moves).value;
    more := Moves(moves);
    QueueRunLifts(c, a, moves, q);
    var end := After(c, a, more).value;
    assert LinkOk(end.reqs[id], end.queue.jobs, id);
  }

  lemma RequestIsReleased(c: AppConfig, a: App, id: Id) returns (more: seq<Step>)
    requires Inv(c, a) && id in a.reqs && a.reqs[id].kind != Async && Live(c, a, id)
    ensures Releases(c, a, more, id)
  {
    var first := if a.reqs[id].kind == Sync then QueueMoves(Q.WaiterCancelled(id)) else StreamStarts(id);
    var last := if a.reqs[id].kind == Sync then ExecuteLeaves(id) else StreamEnds(id);
    assert LinkOk(a.reqs[id], a.queue.jobs, id);
    if a.reqs[id].stage.Streaming? {
      AfterCons(c, a, last, []);
      more := [last] + [];
    } else {
      AfterCons(c, Next(c, a, first), last, []);
      AfterCons(c, a, first, [last] + []);
      more := [first] + ([last] + []);
    }
  }

  lemma QueueKeepsPool(c: AppConfig, a: App, step: Step)
    requires K.PoolOk(a.queue) && Enabled(a, step)
    ensures K.PoolOk(Next(c, a, step).queue)
  {
    if Next(c, a, step).queue != a.queue {
      K.StepKeepsPool(c.queue, a.queue, QueueMove(step).value);
    }
  }

  lemma {:induction false} RunKeepsPool(c: AppConfig, a: App, steps: seq<Step>, a': App)
    requires K.PoolOk(a.queue) && After(c, a, steps) == Some(a')
    ensures K.PoolOk(a'.queue)
    decreases |steps|
  {
    if steps != [] {
      QueueKeepsPool(c, a, steps[0]);
      RunKeepsPool(c, Next(c, a, steps[0]), steps[1..], a');
    }
  }

  /** In every reachable state an admitted request releases its slot in some continuation, or has released it,
      exactly when it is not leaked; a leaked one holds its slot in every continuation. */
  lemma SlotIsReleasedExactly(c: AppConfig, steps: seq<Step>, a: App, id: Id)
    requires After(c, Boot(c), steps) == Some(a) && id in a.reqs
    ensures (exists more :: Releases(c, a, more, id)) <==> !Leaked(c, a, id)
  {
    Reachable(c, steps, a);
    RunKeepsPool(c, Boot(c), steps, a);
    StageIsOwnership(c, a, id);
    if Leaked(c, a, id) {
      forall more ensures !Releases(c, a, more, id) {
        if After(c, a, more).Some? {
          LeakedForGood(c, a, more, After(c, a, more).value, id);
          if id in After(c, a, more).value.reqs {
            StageIsOwnership(c, After(c, a, more).value, id);
          }
        }
      }
    } else if Live(c, a, id) {
      if a.reqs[id].kind == Async {
        var more := JobIsReleased(c, a, id);
      } else {
        var more := RequestIsReleased(c, a, id);
      }
    } else {
      assert Releases(c, a, [], id);
    }
  }

  /** So the in-flight count of its identity never falls to zero again. */
  lemma LeakedSlotIsHeld(c: AppConfig, steps: seq<Step>, a: App, id: Id, more: seq<Step>, a': App)
    requires After(c, Boot(c), steps) == Some(a) && Leaked(c, a, id) && After(c, a, more) == Some(a')
    ensures Leaked(c, a', id) && a'.reqs[id].releases == 0
    ensures !a'.reqs[id].admin ==> Count(a'.limiter, a'.reqs[id].identity) >= 1
  {
    Reachable(c, steps, a);
    LeakedForGood(c, a, more, a', id);
    StageIsOwnership(c, a', id);
    if !a'.reqs[id].admin {
      assert id in HeldBy(a'.reqs, a'.reqs[id].identity);
    }
  }

  // ---------------------------------------------------------------- the leaks

  const POST := PostJob(7, "u", false, 1.0)
  const ONE_WORKER := AppConfig(RateLimit.Config(0, 0), Q.Config(1, 0, 600.0), 1)

  lemma DroppedStreamLeaks()
    ensures var end := After(ONE_WORKER, Boot(ONE_WORKER), [PostStream(7, "u", false, 1.0), StreamDropped(7)]);
            end.Some? && Leaked(ONE_WORKER, end.value, 7)
  {
    var c := ONE_WORKER;
    var a := Next(c, Boot(c), PostStream(7, "u", false, 1.0));
    AfterCons(c, a, StreamDropped(7), []);
    AfterCons(c, Boot(c), PostStream(7, "u", false, 1.0), [StreamDropped(7)] + []);
    assert [PostStream(7, "u", false, 1.0), StreamDropped(7)] ==
        [PostStream(7, "u", false, 1.0)] + ([StreamDropped(7)] + []);
  }

  /** When the grace period ends, every asynchronous job that is queued or executing leaks. */
  lemma GraceLeaks(c: AppConfig, steps: seq<Step>, a: App, id: Id)
    requires After(c, Boot(c), steps) == Some(a) && Enabled(a, QueueMoves(Q.GraceExpires))
    requires id in a.reqs && a.reqs[id].kind == Async && id in a.queue.jobs
    ensures Leaked(c, Next(c, a, QueueMoves(Q.GraceExpires)), id) <==>
            a.queue.jobs[id].status.Queued? || a.queue.jobs[id].status.Running?
  {
    Reachable(c, steps, a);
    assert LinkOk(a.reqs[id], a.queue.jobs, id) && Q.JobOkIn(a.queue, id);
  }

  lemma Posted(c: AppConfig) returns (a: App)
    requires c == ONE_WORKER
    ensures After(c, Boot(c), [POST]) == Some(a) && JustPosted(a.queue)
  {
    a := Next(c, Boot(c), POST);
    assert Boot(c).queue.workers == [Q.Idle];
    AfterCons(c, Boot(c), POST, []);
    assert [POST] + [] == [POST];
  }

  lemma {:induction false} AfterConcat(c: AppConfig, a: App, first: seq<Step>, rest: seq<Step>, a': App)
    requires After(c, a, first) == Some(a')
    ensures After(c, a, first + rest) == After(c, a', rest)
    decreases |first|
  {
    if first == [] {
      assert first + rest == rest;
    } else {
      assert (first + rest)[0] == first[0] && (first + rest)[1..] == first[1..] + rest;
      AfterConcat(c, Next(c, a, first[0]), first[1..], rest, a');
    }
  }

  /** A run, and then what the queue does by itself. */
  lemma QueueGoesOn(c: AppConfig, steps: seq<Step>, a: App, moves: seq<Q.Step>, q: Q.Queue, id: Id) returns (end: App)
    requires After(c, Boot(c), steps) == Some(a) && J.After(c.queue, a.queue, moves) == Some(q)
    requires K.PostsNothing(moves) && K.Abandoned(c.queue, q, id)
    ensures After(c, Boot(c), steps + Moves(moves)) == Some(end) && end.queue == q && Leaked(c, end, id)
  {
    Reachable(c, steps, a);
    QueueRunLifts(c, a, moves, q);
    AfterConcat(c, Boot(c), steps, Moves(moves), a);
    end := After(c, a, Moves(moves)).value;
    assert LinkOk(end.reqs[id], end.queue.jobs, id);
  }

  ghost predicate JustPosted(q: Q.Queue) {
    && q.queue == [7] && q.phase == Q.Up && q.workers == [Q.Idle] && q.clock == 1.0
    && 7 in q.jobs && q.jobs[7] == Q.AsyncJob("u", true)
  }

  lemma StopsQueued(c: Q.Config, q: Q.Queue) returns (q': Q.Queue)
    requires JustPosted(q)
    ensures J.After(c, q, [Q.StopCalled, Q.GraceExpires, Q.WorkerCancelled(0, 36.0), Q.StopReturns]) == Some(q')
    ensures K.Abandoned(c, q', 7) && q'.phase == Q.Down(false)
    ensures K.PostsNothing([Q.StopCalled, Q.GraceExpires, Q.WorkerCancelled(0, 36.0), Q.StopReturns])
  {
    var q1 := Q.Next(c, q, Q.StopCalled);
    var q2 := Q.Next(c, q1, Q.GraceExpires);
    assert q2.workers[0] == Q.Idle;
    var q3 := Q.Next(c, q2, Q.WorkerCancelled(0, 36.0));
    assert q3 == q2.(workers := [Q.Exited], clock := 36.0);
    q' := Q.Next(c, q3, Q.StopReturns);
    FourMoves(c, q, Q.StopCalled, Q.GraceExpires, Q.WorkerCancelled(0, 36.0), Q.StopReturns, q1, q2, q3, q');
  }

  lemma StopsExecuting(c: Q.Config, q: Q.Queue) returns (q': Q.Queue)
    requires JustPosted(q)
    ensures J.After(c, q, [Q.WorkerTakes(0), Q.StopCalled, Q.GraceExpires, Q.WorkerCancelled(0, 36.0)]) == Some(q')
    ensures K.Abandoned(c, q', 7) && J.CancelledMidRun(q'.jobs[7])
    ensures K.PostsNothing([Q.WorkerTakes(0), Q.StopCalled, Q.GraceExpires, Q.WorkerCancelled(0, 36.0)])
  {
    var q1 := Q.Next(c, q, Q.WorkerTakes(0));
    assert q1.workers[0] == Q.Executing(7) && q1.jobs[7] == q.jobs[7].(status := Q.Running);
    var q2 := Q.Next(c, q1, Q.StopCalled);
    var q3 := Q.Next(c, q2, Q.GraceExpires);
    q' := Q.Next(c, q3, Q.WorkerCancelled(0, 36.0));
    FourMoves(c, q, Q.WorkerTakes(0), Q.StopCalled, Q.GraceExpires, Q.WorkerCancelled(0, 36.0), q1, q2, q3, q');
  }

  /** A job that is still queued when the grace period ends. */
  lemma QueuedJobLeaks() returns (moves: seq<Q.Step>, end: App)
    ensures moves == [Q.StopCalled, Q.GraceExpires, Q.WorkerCancelled(0, 36.0), Q.StopReturns]
    ensures After(ONE_WORKER, Boot(ONE_WORKER), [POST] + Moves(moves)) == Some(end)
    ensures Leaked(ONE_WORKER, end, 7) && end.queue.phase == Q.Down(false)
  {
    var a := Posted(ONE_WORKER);
    var q := StopsQueued(ONE_WORKER.queue, a.queue);
    moves := [Q.StopCalled, Q.GraceExpires, Q.WorkerCancelled(0, 36.0), Q.StopReturns];
    end := QueueGoesOn(ONE_WORKER, [POST], a, moves, q, 7);
  }

  /** A job that is executing when the grace period ends. */
  lemma CutJobLeaks() returns (moves: seq<Q.Step>, end: App)
    ensures moves == [Q.WorkerTakes(0), Q.StopCalled, Q.GraceExpires, Q.WorkerCancelled(0, 36.0)]
    ensures After(ONE_WORKER, Boot(ONE_WORKER), [POST] + Moves(moves)) == Some(end)
    ensures Leaked(ONE_WORKER, end, 7) && 7 in end.queue.jobs && J.CancelledMidRun(end.queue.jobs[7])
  {
    var a := Posted(ONE_WORKER);
    var q := StopsExecuting(ONE_WORKER.queue, a.queue);
    moves := [Q.WorkerTakes(0), Q.StopCalled, Q.GraceExpires, Q.WorkerCancelled(0, 36.0)];
    end := QueueGoesOn(ONE_WORKER, [POST], a, moves, q, 7);
  }

  lemma FourMoves(c: Q.Config, q: Q.Queue, s1: Q.Step, s2: Q.Step, s3: Q.Step, s4: Q.Step,
                  q1: Q.Queue, q2: Q.Queue, q3: Q.Queue, q4: Q.Queue)
    requires Q.Enabled(q, s1) && q1 == Q.Next(c, q, s1)
    requires Q.Enabled(q1, s2) && q2 == Q.Next(c, q1, s2)
    requires Q.Enabled(q2, s3) && q3 == Q.Next(c, q2, s3)
    requires Q.Enabled(q3, s4) && q4 == Q.Next(c, q3, s4)
    ensures J.After(c, q, [s1, s2, s3, s4]) == Some(q4)
  {
    J.AfterCons(c, q3, s4, []);
    J.AfterCons(c, q2, s3, [s4] + []);
    J.AfterCons(c, q1, s2, [s3] + ([s4] + []));
    J.AfterCons(c, q, s1, [s2] + ([s3] + ([s4] + [])));
    assert [s1, s2, s3, s4] == [s1] + ([s2] + ([s3] + ([s4] + [])));
  }
}
