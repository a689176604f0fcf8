/** The job queue over every run: every sequence of steps from the start, whichever runnable task goes next. */
module QueueRuns {
  import opened Options
  import opened JobQueues

  /** Where the steps lead from q, if each is possible in its turn. */
  function After(c: Config, q: Queue, steps: seq<Step>): Option<Queue>
    decreases |steps|
  {
    if steps == [] then Some(q)
    else if !Enabled(q, steps[0]) then None
    else After(c, Next(c, q, steps[0]), steps[1..])
  }

  lemma AfterCons(c: Config, q: Queue, step: Step, rest: seq<Step>)
    requires Enabled(q, step)
    ensures After(c, q, [step] + rest) == After(c, Next(c, q, step), rest)
  {
    assert ([step] + rest)[1..] == rest;
  }

  lemma {:induction false} RunKeepsInv(c: Config, q: Queue, steps: seq<Step>, q': Queue)
    requires Inv(c, q) && After(c, q, steps) == Some(q')
    ensures Inv(c, q')
    decreases |steps|
  {
    if steps != [] {
      StepKeepsInv(c, q, steps[0]);
      RunKeepsInv(c, Next(c, q, steps[0]), steps[1..], q');
    }
  }

  lemma Reachable(c: Config, steps: seq<Step>, q: Queue)
    requires After(c, Started(c), steps) == Some(q)
    ensures Inv(c, q)
  {
    StartedInv(c);
    RunKeepsInv(c, Started(c), steps, q);
  }

  lemma {:induction false} CountIsBounded(ws: seq<Worker>)
    ensures CountExecuting(ws) <= |ws|
  {
    if ws != [] {
      CountIsBounded(ws[..|ws| - 1]);
    }
  }

  /** The bounds, and the two counters. */
  lemma CountersAreExact(c: Config, steps: seq<Step>, q: Queue)
    requires After(c, Started(c), steps) == Some(q)
    ensures c.depth > 0 ==> |q.queue| <= c.depth
    ensures q.active == CountExecuting(q.workers) <= c.workers
    ensures q.unfinished == |q.queue| + q.active
  {
    Reachable(c, steps, q);
    CountIsBounded(q.workers);
  }

  predicate Finishes(j: Job) { j.finishedAt.Some? }

  /** Every accepted job is in exactly one of three places; jobs start in the order of acceptance, none of
      them twice. */
  lemma JobsStartOnceInOrder(c: Config, steps: seq<Step>, q: Queue)
    requires After(c, Started(c), steps) == Some(q)
    ensures q.started <= q.accepted && NoDuplicates(q.accepted) && NoDuplicates(q.started)
    ensures forall id :: id in q.accepted ==>
              && id in q.jobs
              && (id in q.queue || Executing(id) in q.workers || Finishes(q.jobs[id]))
              && !(id in q.queue && Executing(id) in q.workers)
              && (Finishes(q.jobs[id]) ==> id !in q.queue && Executing(id) !in q.workers)
              && (id in q.queue <==> id !in q.started)
  {
    Reachable(c, steps, q);
    forall id | id in q.accepted
      ensures id in q.jobs && JobOkIn(q, id) && (id in q.queue <==> id !in q.started)
    {
      StartedOrQueued(q, id);
    }
    assert forall i :: 0 <= i < |q.started| ==> q.accepted[i] == q.started[i];
  }

  lemma StartedOrQueued(q: Queue, id: Id)
    requires LogsOk(q) && id in q.accepted
    ensures id in q.queue <==> id !in q.started
  {
    if id in q.started {
      var i :| 0 <= i < |q.started| && q.started[i] == id;
      assert q.accepted[i] == id;
      forall k | 0 <= k < |q.queue| ensures q.queue[k] != id {
        assert q.accepted[|q.started| + k] == q.queue[k];
      }
    }
  }

  /** The hook of a job is called once, and only when the result is there; outside shutdown it is not cut short. */
  lemma HookIsCalledOnce(c: Config, steps: seq<Step>, q: Queue, id: Id)
    requires After(c, Started(c), steps) == Some(q) && id in q.jobs
    ensures var j := q.jobs[id];
            && j.calls == (if j.hook != NoHook && (j.status.Done? || j.status.Error?) then 1 else 0)
            && (j.calls == 1 ==> j.result.Some? && Finishes(j))
            && (!Stopping(q.phase) ==> j.hook != Interrupted)
  {
    Reachable(c, steps, q);
    assert JobOkIn(q, id);
  }

  /** What no later step takes back. */
  ghost predicate Extends(q: Queue, q': Queue) {
    && q.clock <= q'.clock
    && (q.closing ==> q'.closing && q'.accepted == q.accepted)
    && (forall id :: id in q.jobs ==> id in q'.jobs && JobExtends(q.jobs[id], q'.jobs[id]))
  }

  predicate JobExtends(j: Job, j': Job) {
    && j'.identity == j.identity
    && (!j.future.Pending? ==> j'.future == j.future)
    && (j'.future.NoFuture? <==> j.future.NoFuture?) && (j'.hook.NoHook? <==> j.hook.NoHook?)
    && (Finishes(j) ==> j'.status == j.status && j'.result == j.result && j'.finishedAt == j.finishedAt)
    && j.calls <= j'.calls
  }

  /** The job a step touches, if it touches one. */
  function Touched(q: Queue, step: Step): Option<Id>
    requires Enabled(q, step)
  {
    match step
    case WorkerTakes(w) => Some(q.queue[0])
    case WorkerFinishes(w, _, _) => Some(q.workers[w].id)
    case HookReturns(w) => Some(q.workers[w].id)
    case WorkerCancelled(w, _) => if Busy(q.workers[w]) then Some(q.workers[w].id) else None
    case WaiterCancelled(id) => Some(id)
    case _ => None
  }

  /** Where the touched job is in its life. */
  predicate TouchedLife(q: Queue, step: Step, j: Job)
    requires Enabled(q, step)
  {
    match step
    case WorkerTakes(_) => j.status.Queued? && j.finishedAt.None? && (j.hook.NoHook? || j.hook.NotCalled?)
    case WorkerFinishes(_, _, _) => j.status.Running? && j.finishedAt.None? && (j.hook.NoHook? || j.hook.NotCalled?)
    case HookReturns(_) => (j.status.Done? || j.status.Error?) && j.hook.InCall?
    case WorkerCancelled(w, _) =>
      if q.workers[w].InHook? then (j.status.Done? || j.status.Error?) && j.hook.InCall?
      else j.status.Running? && j.finishedAt.None? && (j.hook.NoHook? || j.hook.NotCalled?)
    case _ => true
  }

  lemma TouchedIsAlive(c: Config, q: Queue, step: Step, id: Id)
    requires Inv(c, q) && Enabled(q, step) && Touched(q, step) == Some(id)
    ensures id in q.jobs && TouchedLife(q, step, q.jobs[id])
  {
    if step.WorkerTakes? {
      assert id in q.queue && JobOkIn(q, id);
    } else if !step.WaiterCancelled? {
      assert q.workers[step.w] in q.workers && JobOkIn(q, id);
    }
  }

  lemma OthersAreUntouched(c: Config, q: Queue, step: Step)
    requires Enabled(q, step)
    ensures var q' := Next(c, q, step);
            && q.clock <= q'.clock
            && (q.closing ==> q'.closing && q'.accepted == q.accepted)
            && (forall id :: id in q.jobs ==>
                  id in q'.jobs && (Touched(q, step) == Some(id) || q'.jobs[id] == q.jobs[id]))
  {
  }

  lemma TouchedExtends(c: Config, q: Queue, step: Step, id: Id)
    requires Inv(c, q) && Enabled(q, step) && Touched(q, step) == Some(id)
    ensures id in q.jobs && id in Next(c, q, step).jobs && JobExtends(q.jobs[id], Next(c, q, step).jobs[id])
  {
    if step.WorkerTakes? {
      assert id in q.queue && JobOkIn(q, id);
    } else if !step.WaiterCancelled? {
      assert q.workers[step.w] in q.workers && JobOkIn(q, id);
    }
  }

  lemma StepExtends(c: Config, q: Queue, step: Step)
    requires Inv(c, q) && Enabled(q, step)
    ensures Extends(q, Next(c, q, step))
  {
    OthersAreUntouched(c, q, step);
    if Touched(q, step).Some? {
      TouchedExtends(c, q, step, Touched(q, step).value);
    }
  }

  lemma ExtendsTrans(p: Queue, q: Queue, r: Queue)
    requires Extends(p, q) && Extends(q, r)
    ensures Extends(p, r)
  {
  }

  lemma {:induction false} RunExtends(c: Config, q: Queue, steps: seq<Step>, q': Queue)
    requires Inv(c, q) && After(c, q, steps) == Some(q')
    ensures Extends(q, q')
    decreases |steps|
  {
    if steps != [] {
      StepKeepsInv(c, q, steps[0]);
      StepExtends(c, q, steps[0]);
      RunExtends(c, Next(c, q, steps[0]), steps[1..], q');
      ExtendsTrans(q, Next(c, q, steps[0]), q');
    }
  }

  /** A sync future is settled at most once: with its own job's outcome, or by cancellation, and then it
      stays as it is whatever the run does next. */
  lemma FutureSettlesOnce(c: Config, steps: seq<Step>, q: Queue, more: seq<Step>, q': Queue, id: Id)
    requires After(c, Started(c), steps) == Some(q) && After(c, q, more) == Some(q') && id in q.jobs
    ensures id in q'.jobs && (!q.jobs[id].future.Pending? ==> q'.jobs[id].future == q.jobs[id].future)
    ensures Finishes(q.jobs[id]) ==> q'.jobs[id].status == q.jobs[id].status && q'.jobs[id].result == q.jobs[id].result
    ensures var j := q'.jobs[id];
            && (j.future.Resolved? ==> j.status == Done && j.result == Some(j.future.r) && j.future.r.Output?)
            && (j.future.Raised? ==> j.status == Error && j.result == Some(Failure(j.future.exc)))
            && (Finishes(j) ==> !j.future.Pending?)
  {
    Reachable(c, steps, q);
    RunExtends(c, q, more, q');
    RunKeepsInv(c, q, more, q');
    assert JobOkIn(q', id);
  }

  /** Once stop() has been called nothing more is accepted. */
  lemma ClosingAcceptsNothing(c: Config, steps: seq<Step>, q: Queue, more: seq<Step>, q': Queue)
    requires After(c, Started(c), steps) == Some(q) && After(c, q, more) == Some(q') && q.closing
    ensures q'.closing && q'.accepted == q.accepted
  {
    Reachable(c, steps, q);
    RunExtends(c, q, more, q');
  }

  predicate NeverStarted(j: Job) {
    && j.status.Queued? && !Finishes(j) && j.result.None?
    && (j.future.NoFuture? || j.future.Pending? || j.future.Cancelled?)
  }

  predicate CancelledMidRun(j: Job) {
    j.status.Running? && Finishes(j) && j.result.None? && (j.future.NoFuture? || j.future.Cancelled?)
  }

  predicate Complete(j: Job) {
    (j.status.Done? || j.status.Error?) && Finishes(j) && j.result.Some? && !j.future.Pending?
  }

  /** How stop() leaves the accepted jobs: all complete if the join returned, and otherwise each either
      complete, cancelled while it ran, or still in the queue. */
  lemma ShutdownLeaves(c: Config, steps: seq<Step>, q: Queue, id: Id)
    requires After(c, Started(c), steps) == Some(q) && q.phase.Down? && id in q.accepted
    ensures id in q.jobs
    ensures Complete(q.jobs[id]) || CancelledMidRun(q.jobs[id]) || (NeverStarted(q.jobs[id]) && id in q.queue)
    ensures q.phase.drained ==> Complete(q.jobs[id])
    ensures q.jobs[id].hook != InCall
  {
    Reachable(c, steps, q);
    assert JobOkIn(q, id) && q.workers == [];
  }

  /** get_job, in any run and at any time: a tracked job is visible to its own identity, to nobody else,
      from its acceptance until the retention time after its end is over. */
  lemma JobIsVisibleUntilStale(c: Config, steps: seq<Step>, q: Queue, id: Id, identity: string, now: real)
    requires After(c, Started(c), steps) == Some(q) && now >= q.clock
    ensures Visible(Next(c, q, GetJob(now)), id, identity) <==>
            id in q.accepted && id in q.jobs && q.jobs[id].future == NoFuture && q.jobs[id].identity == identity
            && !(Finishes(q.jobs[id]) && now - q.jobs[id].finishedAt.value > c.ttl)
  {
    Reachable(c, steps, q);
  }

  /** A poll and an asynchronous submission leave tracked exactly what was tracked and not finished longer ago
      than the retention time, and the job that was just accepted. */
  lemma StaleJobsAreForgotten(c: Config, steps: seq<Step>, q: Queue, step: Step, id: Id)
    requires After(c, Started(c), steps) == Some(q) && Enabled(q, step) && (step.GetJob? || step.SubmitAsync?)
    ensures var q' := Next(c, q, step);
            id in q'.tracked <==>
              || (id in q.tracked && id in q.jobs &&
                  !(q.jobs[id].finishedAt.Some? && step.now - q.jobs[id].finishedAt.value > c.ttl))
              || (step.SubmitAsync? && id == step.id && id in q'.accepted)
  {
    Reachable(c, steps, q);
  }

  /** A drained stop still cuts short every hook that is running: the join counts executions, not hooks. */
  lemma DrainedStopCutsHooks(c: Config, steps: seq<Step>, q: Queue, w: nat, id: Id, now: real)
    requires After(c, Started(c), steps) == Some(q) && q.phase.Up? && q.unfinished == 0
    requires w < |q.workers| && q.workers[w] == InHook(id) && now >= q.clock
    ensures var end := After(c, q, [StopCalled, JoinReturns, WorkerCancelled(w, now)]);
            && end.Some? && end.value.phase == Cancelling(true)
            && id in end.value.jobs && Complete(end.value.jobs[id]) && end.value.jobs[id].hook == Interrupted
  {
    Reachable(c, steps, q);
    assert q.workers[w] in q.workers && JobOkIn(q, id);
    var q1 := Next(c, q, StopCalled);
    var q2 := Next(c, q1, JoinReturns);
    AfterCons(c, q, StopCalled, [JoinReturns, WorkerCancelled(w, now)]);
    AfterCons(c, q1, JoinReturns, [WorkerCancelled(w, now)]);
    AfterCons(c, q2, WorkerCancelled(w, now), []);
  }

  // ---------------------------------------------------------------- told from the steps

  /** A submission is accepted exactly when stop() has not been called and fewer jobs wait than the depth, if
      there is one; an accepted job comes after all that were accepted before. */
  lemma AcceptsExactly(c: Config, steps: seq<Step>, q: Queue, step: Step)
    requires After(c, Started(c), steps) == Some(q) && Enabled(q, step) && (step.Submit? || step.SubmitAsync?)
    ensures Next(c, q, step).accepted ==
              if StopCalled !in steps && (c.depth <= 0 || |q.accepted| - |q.started| < c.depth)
              then q.accepted + [step.id] else q.accepted
  {
    Reachable(c, steps, q);
    ClosingTold(c, Started(c), steps, q);
  }

  lemma {:induction false} ClosingTold(c: Config, q: Queue, steps: seq<Step>, q': Queue)
    requires After(c, q, steps) == Some(q')
    ensures q'.closing <==> q.closing || StopCalled in steps
    decreases |steps|
  {
    if steps != [] {
      assert steps == [steps[0]] + steps[1..];
      ClosingTold(c, Next(c, q, steps[0]), steps[1..], q');
    }
  }

  /** A worker takes the job that was accepted first among those that no worker has taken. */
  lemma OldestIsTaken(c: Config, steps: seq<Step>, q: Queue, w: nat)
    requires After(c, Started(c), steps) == Some(q) && Enabled(q, WorkerTakes(w))
    ensures |q.started| < |q.accepted|
    ensures var q', id := Next(c, q, WorkerTakes(w)), q.accepted[|q.started|];
            && q'.workers[w] == Executing(id) && q'.started == q.started + [id]
            && id in q'.jobs && q'.jobs[id].status == Running
  {
    Reachable(c, steps, q);
    assert q.accepted[|q.started|] == q.queue[0];
  }

  /** An accepted job keeps the identity it was submitted with, and its kind, whatever follows. */
  lemma SubmittedJobStays(c: Config, steps: seq<Step>, q: Queue, step: Step, more: seq<Step>, q': Queue)
    requires After(c, Started(c), steps) == Some(q) && Enabled(q, step) && (step.Submit? || step.SubmitAsync?)
    requires After(c, Next(c, q, step), more) == Some(q') && step.id in Next(c, q, step).accepted
    ensures step.id in q'.jobs
    ensures var j := q'.jobs[step.id];
            && j.identity == step.identity
            && (j.future.NoFuture? <==> step.SubmitAsync?)
            && (j.hook.NoHook? <==> step.Submit? || !step.hooked)
  {
    Reachable(c, steps, q);
    StepKeepsInv(c, q, step);
    RunExtends(c, Next(c, q, step), more, q');
  }

  /** What the end of an execution leaves for good: the time of that step, the status and the result of its
      outcome, and the future, if it was pending, settled with the same. */
  lemma FinishedJobStays(c: Config, steps: seq<Step>, q: Queue, w: nat, o: Outcome, now: real, more: seq<Step>,
                         q': Queue)
    requires After(c, Started(c), steps) == Some(q) && Enabled(q, WorkerFinishes(w, o, now))
    requires After(c, Next(c, q, WorkerFinishes(w, o, now)), more) == Some(q')
    ensures var id := q.workers[w].id;
            && id in q.jobs && id in q'.jobs
            && q'.jobs[id].finishedAt == Some(now)
            && q'.jobs[id].status == (if o.Returns? then Done else Error)
            && q'.jobs[id].result == Some(if o.Returns? then Output(o.text) else Failure(o.exc))
            && q'.jobs[id].future == (if !q.jobs[id].future.Pending? then q.jobs[id].future
                                      else if o.Returns? then Resolved(Output(o.text)) else Raised(o.exc))
  {
    var step := WorkerFinishes(w, o, now);
    Reachable(c, steps, q);
    StepKeepsInv(c, q, step);
    RunExtends(c, Next(c, q, step), more, q');
  }

  /** A poll sees a tracked job that has finished exactly as long as the retention time since that step is not
      over. */
  lemma FinishedJobIsSeen(c: Config, steps: seq<Step>, q: Queue, w: nat, o: Outcome, now: real, more: seq<Step>,
                          q': Queue, t: real, who: string)
    requires After(c, Started(c), steps) == Some(q) && Enabled(q, WorkerFinishes(w, o, now))
    requires After(c, Next(c, q, WorkerFinishes(w, o, now)), more) == Some(q') && t >= q'.clock
    ensures var id := q.workers[w].id;
            id in q.jobs && (Visible(Next(c, q', GetJob(t)), id, who) <==>
              q.jobs[id].future.NoFuture? && q.jobs[id].identity == who && t - now <= c.ttl)
  {
    var step, id := WorkerFinishes(w, o, now), q.workers[w].id;
    Reachable(c, steps, q);
    FinishedJobStays(c, steps, q, w, o, now, more, q');
    StepKeepsInv(c, q, step);
    RunKeepsInv(c, Next(c, q, step), more, q');
    OthersAreUntouched(c, q, step);
    TouchedExtends(c, q, step, id);
    RunExtends(c, Next(c, q, step), more, q');
  }

  /** What a cancellation during the execution leaves for good. */
  lemma CutJobStays(c: Config, steps: seq<Step>, q: Queue, w: nat, now: real, more: seq<Step>, q': Queue)
    requires After(c, Started(c), steps) == Some(q) && Enabled(q, WorkerCancelled(w, now)) && q.workers[w].Executing?
    requires After(c, Next(c, q, WorkerCancelled(w, now)), more) == Some(q')
    ensures var id := q.workers[w].id;
            && id in q.jobs && id in q'.jobs
            && q'.jobs[id].finishedAt == Some(now) && q'.jobs[id].status == Running && q'.jobs[id].result == None
            && q'.jobs[id].future == (if q.jobs[id].future.Pending? then Cancelled else q.jobs[id].future)
  {
    var step, id := WorkerCancelled(w, now), q.workers[w].id;
    Reachable(c, steps, q);
    TouchedIsAlive(c, q, step, id);
    assert q.workers[w] in q.workers && JobOkIn(q, id);
    StepKeepsInv(c, q, step);
    RunExtends(c, Next(c, q, step), more, q');
  }
}
