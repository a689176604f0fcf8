/** The route handlers as they are written, app/api/routes.py, changing the limiter, the queue and the stream
    semaphore in place: each method is the stretch of a handler up to its next await, and does what the step
    of that name in Routes says. */
module Handlers {
  import opened RateLimit
  import Q = JobQueues
  import R = Routes

  /** Proceeds: the handler goes on; TooMany and QueueFull are answers with status 429. */
  datatype Reply = Proceeds | TooMany(retryAfter: int, reason: Reason) | QueueFull(retryAfter: int)

  class Service {
    const cfg: R.AppConfig
    const limiter: RateLimiter
    const queue: Q.JobQueue
    var slots: int
    ghost var reqs: map<R.Id, R.Req>

    ghost function State(): R.App
      reads this, limiter, queue
    {
      R.App(limiter.State(), queue.State(), reqs, slots)
    }

    ghost predicate Valid() { limiter.cfg == cfg.limits && queue.cfg == cfg.queue }

    constructor (cfg: R.AppConfig)
      ensures this.cfg == cfg && Valid() && fresh(limiter) && fresh(queue)
      ensures State() == R.Boot(cfg)
    {
      this.cfg := cfg;
      limiter := new RateLimiter(cfg.limits.perMin, cfg.limits.maxInflight);
      queue := new Q.JobQueue(cfg.queue);
      slots, reqs := cfg.streams, map[];
    }

    /** _rl_acquire */
    method Acquire(identity: string, admin: bool, now: real) returns (out: Outcome)
      requires Valid()
      modifies limiter
      ensures admin ==> out == Admitted && limiter.State() == old(limiter.State())
      ensures !admin ==> (limiter.State(), out) == AcquireStep(cfg.limits, old(limiter.State()), identity, now)
    {
      if admin {
        return Admitted;
      }
      out := limiter.Acquire(identity, now);
    }

    /** _rl_release */
    method Release(identity: string, admin: bool)
      modifies limiter
      ensures limiter.State() == if admin then old(limiter.State()) else ReleaseStep(old(limiter.State()), identity)
    {
      if !admin {
        limiter.Release(identity);
      }
    }

    /** A finally of the request's: ghost code notes that it has run. */
    method ReleaseFor(id: R.Id, identity: string, admin: bool)
      requires id in reqs && reqs[id].identity == identity && reqs[id].admin == admin
      modifies this`reqs, limiter
      ensures State() == R.Release(old(State()), id)
    {
      Release(identity, admin);
      reqs := reqs[id := reqs[id].(stage := R.Released, releases := reqs[id].releases + 1)];
    }

    /** execute_code, up to the await of submit(); a full queue raises before the await, into the finally */
    method Execute(id: R.Id, identity: string, admin: bool, now: real) returns (reply: Reply)
      requires Valid() && R.Enabled(State(), R.PostExecute(id, identity, admin, now))
      modifies this`reqs, limiter, queue
      ensures State() == R.Next(cfg, old(State()), R.PostExecute(id, identity, admin, now))
      ensures var out := if admin then Admitted else AcquireStep(cfg.limits, old(limiter.State()), identity, now).1;
              var full := old(queue.closing || (cfg.queue.depth > 0 && |queue.queue| >= cfg.queue.depth));
              && (out.Limited? ==> reply == TooMany(out.retryAfter, out.reason))
              && (out.Admitted? ==> reply == if full then QueueFull(2) else Proceeds)
    {
      var out := Acquire(identity, admin, now);
      if out.Limited? {
        return TooMany(out.retryAfter, out.reason);
      }
      reqs := reqs[id := R.Req(R.Sync, identity, admin, R.Waiting, 0)];
      var ok := queue.Submit(id, identity);
      if !ok {
        ReleaseFor(id, identity, admin);
        return QueueFull(2);
      }
      return Proceeds;
    }

    /** execute_code's finally, when submit() has returned, raised or been cancelled */
    method ExecuteDone(id: R.Id, identity: string, admin: bool)
      requires R.Enabled(State(), R.ExecuteLeaves(id)) && reqs[id].identity == identity && reqs[id].admin == admin
      modifies this`reqs, limiter
      ensures State() == R.Next(cfg, old(State()), R.ExecuteLeaves(id))
    {
      ReleaseFor(id, identity, admin);
    }

    /** execute_stream_route: the generator is created, not started */
    method PostStream(id: R.Id, identity: string, admin: bool, now: real) returns (reply: Reply)
      requires Valid() && R.Enabled(State(), R.PostStream(id, identity, admin, now))
      modifies this`reqs, limiter
      ensures State() == R.Next(cfg, old(State()), R.PostStream(id, identity, admin, now))
      ensures var out := if admin then Admitted else AcquireStep(cfg.limits, old(limiter.State()), identity, now).1;
              reply == if out.Limited? then TooMany(out.retryAfter, out.reason) else Proceeds
    {
      var out := Acquire(identity, admin, now);
      if out.Limited? {
        return TooMany(out.retryAfter, out.reason);
      }
      reqs := reqs[id := R.Req(R.Stream, identity, admin, R.Created, 0)];
      return Proceeds;
    }

    /** stream_slots.acquire() succeeds */
    method TakeStreamSlot(id: R.Id)
      requires R.Enabled(State(), R.StreamTakesSlot(id))
      modifies this`reqs, this`slots
      ensures State() == R.Next(cfg, old(State()), R.StreamTakesSlot(id))
    {
      slots := slots - 1;
      reqs := reqs[id := reqs[id].(stage := R.Streaming(true))];
    }

    /** The finally of gen(), however it is left */
    method EndStream(id: R.Id, identity: string, admin: bool, acquired: bool)
      requires R.Enabled(State(), R.StreamEnds(id)) && acquired == (reqs[id].stage == R.Streaming(true))
      requires reqs[id].identity == identity && reqs[id].admin == admin
      modifies this`reqs, this`slots, limiter
      ensures State() == R.Next(cfg, old(State()), R.StreamEnds(id))
    {
      if acquired {
        slots := slots + 1;
      }
      ReleaseFor(id, identity, admin);
    }

    /** submit_job: submit_async() has no await of its own */
    method SubmitJob(id: R.Id, identity: string, admin: bool, now: real) returns (reply: Reply)
      requires Valid() && R.Enabled(State(), R.PostJob(id, identity, admin, now))
      modifies this`reqs, limiter, queue
      ensures State() == R.Next(cfg, old(State()), R.PostJob(id, identity, admin, now))
      ensures var out := if admin then Admitted else AcquireStep(cfg.limits, old(limiter.State()), identity, now).1;
              var full := old(queue.closing || (cfg.queue.depth > 0 && |queue.queue| >= cfg.queue.depth));
              && (out.Limited? ==> reply == TooMany(out.retryAfter, out.reason))
              && (out.Admitted? ==> reply == if full then QueueFull(2) else Proceeds)
    {
      var out := Acquire(identity, admin, now);
      if out.Limited? {
        return TooMany(out.retryAfter, out.reason);
      }
      reqs := reqs[id := R.Req(R.Async, identity, admin, R.Handed, 0)];
      var ok := queue.SubmitAsync(id, identity, true, now);
      if !ok {
        ReleaseFor(id, identity, admin);
        return QueueFull(2);
      }
      return Proceeds;
    }

    /** The finally of a job's on_complete, and the return to the worker */
    method CompleteJob(w: nat, identity: string, admin: bool)
      requires R.Enabled(State(), R.QueueMoves(Q.HookReturns(w)))
      requires var r := reqs[queue.workers[w].id]; r.identity == identity && r.admin == admin
      modifies this`reqs, limiter, queue
      ensures State() == R.Next(cfg, old(State()), R.QueueMoves(Q.HookReturns(w)))
    {
      var id := queue.workers[w].id;
      ReleaseFor(id, identity, admin);
      queue.EndHook(w);
    }
  }
}
