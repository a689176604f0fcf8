/** Completion hooks of the job queue, over every run: which of them stop() cuts short, and which are never
    called at all. */
module Hooks {
  import opened Options
  import opened JobQueues
  import opened QueueRuns

  // ---------------------------------------------------------------- hooks and stop()

  /** What becomes of a hook once the workers are being cancelled. */
  function AfterStop(h: Hook): Hook { if h.InCall? then Interrupted else h }

  lemma StoppingStepKeepsFate(c: Config, q: Queue, step: Step, id: Id)
    requires Inv(c, q) && Enabled(q, step) && Stopping(q.phase) && id in q.jobs
    ensures Stopping(Next(c, q, step).phase) && id in Next(c, q, step).jobs
    ensures AfterStop(Next(c, q, step).jobs[id].hook) == AfterStop(q.jobs[id].hook)
  {
    OthersAreUntouched(c, q, step);
    if Touched(q, step) == Some(id) {
      TouchedIsAlive(c, q, step, id);
    }
  }

  lemma {:induction false} StoppingRunKeepsFate(c: Config, q: Queue, steps: seq<Step>, q': Queue, id: Id)
    requires Inv(c, q) && After(c, q, steps) == Some(q') && Stopping(q.phase) && id in q.jobs
    ensures id in q'.jobs && AfterStop(q'.jobs[id].hook) == AfterStop(q.jobs[id].hook)
    decreases |steps|
  {
    if steps != [] {
      StepKeepsInv(c, q, steps[0]);
      StoppingStepKeepsFate(c, q, steps[0], id);
      StoppingRunKeepsFate(c, Next(c, q, steps[0]), steps[1..], q', id);
    }
  }

  /** From any state in which stop() is cancelling: when it has returned, exactly the hooks that were in their
      call, or already interrupted, are interrupted, and every other hook is as it was. */
  lemma StopCutsExactlyRunningHooks(c: Config, steps: seq<Step>, q: Queue, more: seq<Step>, q': Queue, id: Id)
    requires After(c, Started(c), steps) == Some(q) && Stopping(q.phase) && id in q.jobs
    requires After(c, q, more) == Some(q') && q'.phase.Down?
    ensures id in q'.jobs && q'.jobs[id].hook == AfterStop(q.jobs[id].hook)
    ensures q'.jobs[id].hook == Interrupted <==> q.jobs[id].hook == InCall || q.jobs[id].hook == Interrupted
  {
    Reachable(c, steps, q);
    StoppingRunKeepsFate(c, q, more, q', id);
    RunKeepsInv(c, q, more, q');
    assert JobOkIn(q', id) && q'.workers == [];
  }

  /** The same, told from the moment at which the join returns or the grace period ends: a stop lets every hook
      finish exactly when no hook is in its call at that moment. */
  lemma StopLetsHooksFinishExactly(c: Config, steps: seq<Step>, q: Queue, step: Step, more: seq<Step>, q': Queue)
    requires After(c, Started(c), steps) == Some(q) && (step == JoinReturns || step == GraceExpires) && Enabled(q, step)
    requires After(c, Next(c, q, step), more) == Some(q') && q'.phase.Down?
    ensures forall id :: id in q.jobs ==>
              id in q'.jobs && (q'.jobs[id].hook == Interrupted <==> q.jobs[id].hook == InCall)
    ensures (forall id :: id in q.jobs ==>
               id in q'.jobs && (q.jobs[id].calls == 1 ==> q'.jobs[id].hook == Returned)) <==>
            (forall id :: id in q.jobs ==> q.jobs[id].hook != InCall)
  {
    Reachable(c, steps, q);
    StepKeepsInv(c, q, step);
    forall id | id in q.jobs
      ensures id in q'.jobs && q'.jobs[id].hook == AfterStop(q.jobs[id].hook) && q.jobs[id].hook != Interrupted
      ensures q.jobs[id].calls == 1 <==> q.jobs[id].hook.InCall? || q.jobs[id].hook.Returned?
    {
      assert JobOkIn(q, id);
      StoppingRunKeepsFate(c, Next(c, q, step), more, q', id);
      RunKeepsInv(c, Next(c, q, step), more, q');
      assert JobOkIn(q', id) && q'.workers == [];
    }
  }

  // ---------------------------------------------------------------- hooks that are never called

  /** This job's hook has not been called and never will be: the job is queued, executing or cut short, and
      the workers are being cancelled, or gone, or there were none. */
  predicate Abandoned(c: Config, q: Queue, id: Id) {
    id in q.jobs && q.jobs[id].hook.NotCalled? && (Stopping(q.phase) || c.workers == 0)
  }

  predicate HookOver(j: Job) { j.hook.Returned? || j.hook.Interrupted? }

  predicate EndsHook(c: Config, q: Queue, more: seq<Step>, id: Id) {
    var end := After(c, q, more); end.Some? && id in end.value.jobs && HookOver(end.value.jobs[id])
  }

  /** Nothing is submitted meanwhile. */
  predicate PostsNothing(steps: seq<Step>) {
    forall i :: 0 <= i < |steps| ==> !steps[i].Submit? && !steps[i].SubmitAsync?
  }

  lemma Prepend(c: Config, q: Queue, step: Step, rest: seq<Step>, id: Id)
    requires Enabled(q, step) && !step.Submit? && !step.SubmitAsync?
    requires EndsHook(c, Next(c, q, step), rest, id) && PostsNothing(rest)
    ensures EndsHook(c, q, [step] + rest, id) && PostsNothing([step] + rest)
  {
    AfterCons(c, q, step, rest);
  }

  /** No worker ends before stop() cancels it. */
  predicate PoolOk(q: Queue) { !Stopping(q.phase) ==> Exited !in q.workers }

  lemma StepKeepsPool(c: Config, q: Queue, step: Step)
    requires PoolOk(q) && Enabled(q, step)
    ensures PoolOk(Next(c, q, step))
  {
  }

  lemma {:induction false} RunKeepsPool(c: Config, q: Queue, steps: seq<Step>, q': Queue)
    requires PoolOk(q) && After(c, q, steps) == Some(q')
    ensures PoolOk(q')
    decreases |steps|
  {
    if steps != [] {
      StepKeepsPool(c, q, steps[0]);
      RunKeepsPool(c, Next(c, q, steps[0]), steps[1..], q');
    }
  }

  lemma StepKeepsAbandoned(c: Config, q: Queue, step: Step, id: Id)
    requires Inv(c, q) && Enabled(q, step) && Abandoned(c, q, id)
    ensures Abandoned(c, Next(c, q, step), id)
  {
    OthersAreUntouched(c, q, step);
    if Touched(q, step) == Some(id) {
      TouchedIsAlive(c, q, step, id);
    }
  }

  lemma {:induction false} AbandonedForGood(c: Config, q: Queue, more: seq<Step>, q': Queue, id: Id)
    requires Inv(c, q) && After(c, q, more) == Some(q') && Abandoned(c, q, id)
    ensures Abandoned(c, q', id)
    decreases |more|
  {
    if more != [] {
      StepKeepsInv(c, q, more[0]);
      StepKeepsAbandoned(c, q, more[0], id);
      AbandonedForGood(c, Next(c, q, more[0]), more[1..], q', id);
    }
  }

  lemma CallEnds(c: Config, q: Queue, w: nat, id: Id) returns (more: seq<Step>)
    requires Inv(c, q) && w < |q.workers| && q.workers[w] == InHook(id)
    ensures EndsHook(c, q, more, id) && PostsNothing(more)
  {
    assert q.workers[w] in q.workers && id in q.jobs;
    var step := if q.phase.Cancelling? then WorkerCancelled(w, q.clock) else HookReturns(w);
    Prepend(c, q, step, [], id);
    more := [step] + [];
  }

  lemma ExecutionEnds(c: Config, q: Queue, w: nat, id: Id) returns (more: seq<Step>)
    requires Inv(c, q) && w < |q.workers| && q.workers[w] == Executing(id) && !Stopping(q.phase)
    requires id in q.jobs && q.jobs[id].hook != NoHook
    ensures EndsHook(c, q, more, id) && PostsNothing(more)
  {
    var step := WorkerFinishes(w, Returns(""), q.clock);
    StepKeepsInv(c, q, step);
    var rest := CallEnds(c, Next(c, q, step), w, id);
    Prepend(c, q, step, rest, id);
    more := [step] + rest;
  }

  function Turns(x: Worker): nat { if x.Executing? then 2 else if x.InHook? then 1 else 0 }

  /** What the first worker does next. */
  function FirstWorkerStep(q: Queue): Step
    requires q.workers != []
  {
    if q.workers[0].Executing? then WorkerFinishes(0, Returns(""), q.clock)
    else if q.workers[0].InHook? then HookReturns(0)
    else WorkerTakes(0)
  }

  lemma FirstWorkerMoves(c: Config, q: Queue, p: nat)
    requires Inv(c, q) && PoolOk(q) && !Stopping(q.phase) && c.workers > 0 && p < |q.queue|
    ensures q.workers != [] && Enabled(q, FirstWorkerStep(q))
    ensures var q', idle := Next(c, q, FirstWorkerStep(q)), q.workers[0].Idle?;
            && Inv(c, q') && PoolOk(q') && q'.phase == q.phase && |q'.workers| == |q.workers|
            && q'.queue == (if idle then q.queue[1..] else q.queue)
            && (if idle then q'.workers[0] == Executing(q.queue[0]) else Turns(q'.workers[0]) < Turns(q.workers[0]))
  {
    assert q.workers[0] in q.workers && q.queue[0] in q.queue;
    StepKeepsInv(c, q, FirstWorkerStep(q));
    StepKeepsPool(c, q, FirstWorkerStep(q));
  }

  /** One worker is enough to reach every queued job. */
  lemma {:induction false} QueuedIsReached(c: Config, q: Queue, p: nat, id: Id) returns (more: seq<Step>)
    requires Inv(c, q) && PoolOk(q) && !Stopping(q.phase) && c.workers > 0 && q.workers != []
    requires p < |q.queue| && q.queue[p] == id && id in q.jobs && q.jobs[id].hook != NoHook
    ensures EndsHook(c, q, more, id) && PostsNothing(more)
    decreases 3 * p + Turns(q.workers[0])
  {
    FirstWorkerMoves(c, q, p);
    var step := FirstWorkerStep(q);
    var q' := Next(c, q, step);
    HookStays(c, q, step, id);
    if !q.workers[0].Idle? {
      more := QueuedIsReached(c, q', p, id);
    } else if p > 0 {
      more := QueuedIsReached(c, q', p - 1, id);
    } else {
      more := ExecutionEnds(c, q', 0, id);
    }
    Prepend(c, q, step, more, id);
    more := [step] + more;
  }

  lemma HookStays(c: Config, q: Queue, step: Step, id: Id)
    requires Inv(c, q) && Enabled(q, step) && id in q.jobs && q.jobs[id].hook != NoHook
    ensures id in Next(c, q, step).jobs && Next(c, q, step).jobs[id].hook != NoHook
  {
    OthersAreUntouched(c, q, step);
  }

  lemma HookIsReached(c: Config, q: Queue, id: Id) returns (more: seq<Step>)
    requires Inv(c, q) && PoolOk(q) && id in q.jobs && q.jobs[id].hook != NoHook && !Abandoned(c, q, id)
    ensures EndsHook(c, q, more, id) && PostsNothing(more)
  {
    assert JobOkIn(q, id);
    if q.jobs[id].hook.InCall? {
      var w :| 0 <= w < |q.workers| && q.workers[w] == InHook(id);
      more := CallEnds(c, q, w, id);
    } else if q.jobs[id].hook.NotCalled? && q.jobs[id].status.Running? {
      var w :| 0 <= w < |q.workers| && q.workers[w] == Executing(id);
      more := ExecutionEnds(c, q, w, id);
    } else if q.jobs[id].hook.NotCalled? {
      var p :| 0 <= p < |q.queue| && q.queue[p] == id;
      more := QueuedIsReached(c, q, p, id);
    } else {
      more := [];
    }
  }

  /** In every reachable state: the hook of a job ends in some continuation exactly when the job is not abandoned. */
  lemma HookIsReachedExactly(c: Config, steps: seq<Step>, q: Queue, id: Id)
    requires After(c, Started(c), steps) == Some(q) && id in q.jobs && q.jobs[id].hook != NoHook
    ensures (exists more :: EndsHook(c, q, more, id)) <==> !Abandoned(c, q, id)
  {
    Reachable(c, steps, q);
    RunKeepsPool(c, Started(c), steps, q);
    if Abandoned(c, q, id) {
      forall more ensures !EndsHook(c, q, more, id) {
        if After(c, q, more).Some? {
          AbandonedForGood(c, q, more, After(c, q, more).value, id);
        }
      }
    } else {
      var more := HookIsReached(c, q, id);
    }
  }
}
