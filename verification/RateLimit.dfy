/** Per-identity admission control, app/api/ratelimit.py.

    The pure functions say what one call of the limiter does to its two dictionaries; the class
    RateLimiter is the source's object, proved against them; the lemmas are about whole runs, that is,
    every sequence of acquire and release by any identities under a clock that never goes back. */
module RateLimit {
  const WINDOW_S: real := 60.0

  datatype Config = Config(perMin: int, maxInflight: int)
  datatype Reason = TooManyRequests | TooManyRuns
  datatype Outcome = Admitted | Limited(retryAfter: int, reason: Reason)
  datatype Limiter = Limiter(events: map<string, seq<real>>, inflight: map<string, int>)

  function Window(s: Limiter, id: string): seq<real> {
    if id in s.events then s.events[id] else []
  }

  function Count(s: Limiter, id: string): int {
    if id in s.inflight then s.inflight[id] else 0
  }

  /** What the popleft loop leaves of a deque at time now. */
  function Live(w: seq<real>, now: real): seq<real> {
    if w == [] || now - w[0] < WINDOW_S then w else Live(w[1..], now)
  }

  function Max(a: int, b: int): int { if a < b then b else a }

  /** Python's int() on a float: truncation towards zero. */
  function Truncate(r: real): int { if r >= 0.0 then r.Floor else -((-r).Floor) }

  /** The Retry-After hint for r seconds still to wait. */
  function Hint(r: real): int { Max(1, Truncate(r)) }

  function AcquireStep(c: Config, s: Limiter, id: string, now: real): (Limiter, Outcome) {
    var w := Live(Window(s, id), now);
    var s' := if c.perMin > 0 then s.(events := s.events[id := w]) else s;
    if c.perMin > 0 && |w| >= c.perMin then
      (s', Limited(Hint(WINDOW_S - (now - w[0])), TooManyRequests))
    else if c.maxInflight > 0 && Count(s, id) >= c.maxInflight then
      (s', Limited(1, TooManyRuns))
    else
      (Limiter(if c.perMin > 0 then s'.events[id := w + [now]] else s'.events,
               s'.inflight[id := Count(s, id) + 1]), Admitted)
  }

  function GcStep(s: Limiter, id: string): Limiter {
    if Count(s, id) > 0 then s
    else Limiter(if Window(s, id) == [] then s.events - {id} else s.events, s.inflight - {id})
  }

  function ReleaseStep(s: Limiter, id: string): Limiter {
    GcStep(if Count(s, id) > 0 then s.(inflight := s.inflight[id := Count(s, id) - 1]) else s, id)
  }

  class RateLimiter {
    const cfg: Config
    var events: map<string, seq<real>>
    var inflight: map<string, int>

    ghost function State(): Limiter
      reads this
    {
      Limiter(events, inflight)
    }

    constructor (perMin: int, maxInflight: int)
      ensures cfg == Config(perMin, maxInflight) && State() == Limiter(map[], map[])
    {
      cfg := Config(perMin, maxInflight);
      events, inflight := map[], map[];
    }

    method Acquire(id: string, now: real) returns (out: Outcome)
      modifies this
      ensures (State(), out) == AcquireStep(cfg, old(State()), id, now)
    {
      if cfg.perMin > 0 {
        var window := if id in events then events[id] else [];
        events := events[id := window];
        while window != [] && now - window[0] >= WINDOW_S
          invariant Live(window, now) == Live(Window(old(State()), id), now)
          invariant State() == old(State()).(events := old(events)[id := window])
        {
          window := window[1..];
          events := events[id := window];
        }
        if |window| >= cfg.perMin {
          return Limited(Max(1, Truncate(WINDOW_S - (now - window[0]))), TooManyRequests);
        }
      }
      if cfg.maxInflight > 0 && (if id in inflight then inflight[id] else 0) >= cfg.maxInflight {
        return Limited(1, TooManyRuns);
      }
      if cfg.perMin > 0 {
        events := events[id := events[id] + [now]];
      }
      inflight := inflight[id := (if id in inflight then inflight[id] else 0) + 1];
      return Admitted;
    }

    method Release(id: string)
      modifies this
      ensures State() == ReleaseStep(old(State()), id)
    {
      if id in inflight && inflight[id] > 0 {
        inflight := inflight[id := inflight[id] - 1];
      }
      Gc(id);
    }

    method Gc(id: string)
      modifies this
      ensures State() == GcStep(old(State()), id)
    {
      if (if id in inflight then inflight[id] else 0) <= 0 {
        inflight := inflight - {id};
        if id !in events || events[id] == [] {
          events := events - {id};
        }
      }
    }
  }

  // ---------------------------------------------------------------- runs

  datatype Op = Acquire(id: string, now: real) | Release(id: string)

  function Apply(c: Config, s: Limiter, op: Op): Limiter {
    match op
    case Acquire(id, now) => AcquireStep(c, s, id, now).0
    case Release(id) => ReleaseStep(s, id)
  }

  function Run(c: Config, ops: seq<Op>): Limiter {
    if ops == [] then Limiter(map[], map[])
    else Apply(c, Run(c, ops[..|ops| - 1]), ops[|ops| - 1])
  }

  /** The times at which id was admitted, none of them ever dropped. */
  function History(c: Config, ops: seq<Op>, id: string): seq<real> {
    if ops == [] then []
    else
      var before, op := ops[..|ops| - 1], ops[|ops| - 1];
      History(c, before, id) +
      if op.Acquire? && op.id == id && AcquireStep(c, Run(c, before), id, op.now).1.Admitted?
      then [op.now] else []
  }

  ghost predicate NotAfter(ops: seq<Op>, now: real) {
    forall i :: 0 <= i < |ops| && ops[i].Acquire? ==> ops[i].now <= now
  }

  ghost predicate Clocked(ops: seq<Op>) {
    forall i, j :: 0 <= i < j < |ops| && ops[i].Acquire? && ops[j].Acquire? ==> ops[i].now <= ops[j].now
  }

  ghost predicate Sorted(w: seq<real>) {
    forall i, j :: 0 <= i < j < |w| ==> w[i] <= w[j]
  }

  /** The events of h less than a minute before now. */
  function Recent(h: seq<real>, now: real): seq<real> {
    if h == [] then []
    else (if now - h[0] < 60.0 then [h[0]] else []) + Recent(h[1..], now)
  }

  /** The events of h in the half-open interval [a, b). */
  function Within(h: seq<real>, a: real, b: real): seq<real> {
    if h == [] then []
    else Within(h[..|h| - 1], a, b) + if a <= h[|h| - 1] < b then [h[|h| - 1]] else []
  }

  lemma {:induction false} LiveIsSuffix(w: seq<real>, now: real)
    requires Sorted(w)
    ensures |Live(w, now)| <= |w| && Live(w, now) == w[|w| - |Live(w, now)|..]
    ensures forall i :: 0 <= i < |w| ==> (now - w[i] < WINDOW_S <==> |w| - |Live(w, now)| <= i)
  {
    if w != [] && now - w[0] >= WINDOW_S {
      LiveIsSuffix(w[1..], now);
      assert forall i :: 1 <= i < |w| ==> w[i] == w[1..][i - 1];
    }
  }

  lemma {:induction false} AllRecent(h: seq<real>, now: real)
    requires forall i :: 0 <= i < |h| ==> now - h[i] < WINDOW_S
    ensures Recent(h, now) == h
  {
    if h != [] {
      AllRecent(h[1..], now);
    }
  }

  lemma {:induction false} LiveIsRecent(w: seq<real>, now: real)
    requires Sorted(w)
    ensures Live(w, now) == Recent(w, now)
  {
    if w != [] {
      if now - w[0] < WINDOW_S {
        AllRecent(w, now);
      } else {
        LiveIsRecent(w[1..], now);
      }
    }
  }

  /** A recent event at index i means that everything from i on is recent. */
  lemma {:induction false} RecentReaches(h: seq<real>, i: nat, now: real)
    requires Sorted(h) && i < |h| && now - h[i] < WINDOW_S
    ensures |Recent(h, now)| >= |h| - i
  {
    if i == 0 {
      AllRecent(h, now);
    } else {
      RecentReaches(h[1..], i - 1, now);
    }
  }

  lemma {:induction false} RecentSnoc(h: seq<real>, x: real, now: real)
    ensures Recent(h + [x], now) == Recent(h, now) + if now - x < WINDOW_S then [x] else []
  {
    if h != [] {
      RecentSnoc(h[1..], x, now);
      assert (h + [x])[1..] == h[1..] + [x];
    }
  }

  lemma {:induction false} RecentOfRecent(h: seq<real>, t: real, now: real)
    requires t <= now
    ensures Recent(Recent(h, t), now) == Recent(h, now)
  {
    if h != [] {
      RecentOfRecent(h[1..], t, now);
      if t - h[0] < WINDOW_S {
        assert ([h[0]] + Recent(h[1..], t))[1..] == Recent(h[1..], t);
      } else {
        assert [] + Recent(h[1..], t) == Recent(h[1..], t);
      }
    }
  }

  ghost predicate UpTo(w: seq<real>, t: real) {
    Sorted(w) && forall i :: 0 <= i < |w| ==> w[i] <= t
  }

  lemma LiveIsUpTo(w: seq<real>, t: real, now: real)
    requires UpTo(w, t) && t <= now
    ensures UpTo(Live(w, t), t) && UpTo(Live(w, t), now)
  {
    LiveIsSuffix(w, t);
  }

  lemma SnocIsUpTo(w: seq<real>, t: real, now: real)
    requires UpTo(w, t) && t <= now
    ensures UpTo(w + [t], now)
  {
  }

  /** Pruning at t, and admitting at t, keep deque and history in agreement for every later moment. */
  lemma PruneAgrees(w: seq<real>, h: seq<real>, t: real, now: real)
    requires UpTo(w, t) && t <= now && Live(w, t) == Recent(h, t)
    ensures Live(Live(w, t), now) == Recent(h, now)
    ensures Live(Live(w, t) + [t], now) == Recent(h + [t], now)
  {
    var v := Live(w, t);
    LiveIsUpTo(w, t, t);
    SnocIsUpTo(v, t, t);
    RecentOfRecent(h, t, now);
    LiveIsRecent(v, now);
    LiveIsRecent(v + [t], now);
    RecentSnoc(v, t, now);
    RecentSnoc(h, t, now);
  }

  lemma WindowAfter(c: Config, s: Limiter, op: Op, id: string)
    requires c.perMin > 0
    ensures Window(Apply(c, s, op), id) ==
            if op == Release(op.id) || op.id != id then Window(s, id)
            else Live(Window(s, id), op.now) + if AcquireStep(c, s, id, op.now).1.Admitted? then [op.now] else []
  {
  }

  lemma ClockedPrefix(ops: seq<Op>, now: real)
    requires ops != [] && Clocked(ops) && NotAfter(ops, now)
    ensures Clocked(ops[..|ops| - 1]) && NotAfter(ops[..|ops| - 1], now)
    ensures ops[|ops| - 1].Acquire? ==> ops[|ops| - 1].now <= now && NotAfter(ops[..|ops| - 1], ops[|ops| - 1].now)
  {
  }

  /** The pruned deque is the unexpired part of the full admission history, at every moment from the
      last acquire on; so neither the popleft loop nor _gc ever drops an unexpired event. */
  lemma {:induction false} WindowIsUnexpiredHistory(c: Config, ops: seq<Op>, id: string, now: real)
    requires c.perMin > 0 && Clocked(ops) && NotAfter(ops, now)
    ensures UpTo(History(c, ops, id), now) && UpTo(Window(Run(c, ops), id), now)
    ensures Live(Window(Run(c, ops), id), now) == Recent(History(c, ops, id), now)
  {
    if ops != [] {
      var p, op := ops[..|ops| - 1], ops[|ops| - 1];
      ClockedPrefix(ops, now);
      WindowIsUnexpiredHistory(c, p, id, now);
      WindowAfter(c, Run(c, p), op, id);
      if op.Acquire? && op.id == id {
        var w, h, t := Window(Run(c, p), id), History(c, p, id), op.now;
        WindowIsUnexpiredHistory(c, p, id, t);
        PruneAgrees(w, h, t, now);
        LiveIsUpTo(w, t, now);
        SnocIsUpTo(Live(w, t), t, now);
        SnocIsUpTo(h, t, now);
        assert h + [] == h && Live(w, t) + [] == Live(w, t);
      } else {
        assert History(c, p, id) + [] == History(c, p, id);
      }
    }
  }

  /** Admissions perMin apart in the history are at least a window apart in time. */
  lemma {:induction false} AdmissionsAreSpaced(c: Config, ops: seq<Op>, id: string, i: nat, j: nat)
    requires c.perMin > 0 && Clocked(ops)
    requires i + c.perMin <= j < |History(c, ops, id)|
    ensures History(c, ops, id)[j] - History(c, ops, id)[i] >= 60.0
  {
    var p, op := ops[..|ops| - 1], ops[|ops| - 1];
    var h := History(c, p, id);
    if j < |h| {
      AdmissionsAreSpaced(c, p, id, i, j);
    } else {
      ClockedPrefix(ops, op.now);
      WindowIsUnexpiredHistory(c, p, id, op.now);
      if op.now - h[i] < WINDOW_S {
        RecentReaches(h, i, op.now);
      }
    }
  }

  function CountBefore(h: seq<real>, a: real): nat {
    if h == [] then 0 else CountBefore(h[..|h| - 1], a) + if h[|h| - 1] < a then 1 else 0
  }

  lemma {:induction false} CountBeforeSplits(h: seq<real>, a: real)
    requires Sorted(h)
    ensures CountBefore(h, a) <= |h|
    ensures forall i :: 0 <= i < |h| ==> (h[i] < a <==> i < CountBefore(h, a))
  {
    if h != [] {
      var p := h[..|h| - 1];
      CountBeforeSplits(p, a);
      assert forall i :: 0 <= i < |p| ==> p[i] == h[i];
      assert |p| > 0 ==> h[|p| - 1] <= h[|p|];
    }
  }

  lemma {:induction false} WithinCounts(h: seq<real>, a: real, b: real)
    requires a <= b
    ensures |Within(h, a, b)| == CountBefore(h, b) - CountBefore(h, a)
  {
    if h != [] {
      WithinCounts(h[..|h| - 1], a, b);
    }
  }

  /** Every half-open minute contains at most perMin admissions of one identity. */
  lemma MinuteBound(c: Config, ops: seq<Op>, id: string, a: real)
    requires c.perMin > 0 && Clocked(ops)
    ensures |Within(History(c, ops, id), a, a + 60.0)| <= c.perMin
  {
    var h := History(c, ops, id);
    var last := LastTime(ops);
    WindowIsUnexpiredHistory(c, ops, id, last);
    var lo, hi := CountBefore(h, a), CountBefore(h, a + WINDOW_S);
    WithinCounts(h, a, a + WINDOW_S);
    CountBeforeSplits(h, a);
    CountBeforeSplits(h, a + WINDOW_S);
    assert lo < |h| ==> a <= h[lo];
    assert 0 < hi ==> h[hi - 1] < a + WINDOW_S;
    if hi - lo > c.perMin {
      AdmissionsAreSpaced(c, ops, id, lo, hi - 1);
    }
  }

  lemma LastTime(ops: seq<Op>) returns (t: real)
    ensures NotAfter(ops, t)
  {
    t := 0.0;
    for k := 0 to |ops|
      invariant NotAfter(ops[..k], t)
    {
      var t' := if ops[k].Acquire? && ops[k].now > t then ops[k].now else t;
      assert forall i :: 0 <= i < k ==> ops[..k + 1][i] == ops[..k][i];
      t := t';
    }
    assert ops[..|ops|] == ops;
  }

  /** What holds between calls: no count of zero is stored, no identity keeps an empty deque without a
      run in flight, and neither the deque nor the count passes its cap. */
  ghost predicate Tidy(c: Config, s: Limiter) {
    && (forall id :: id in s.inflight ==> s.inflight[id] > 0)
    && (forall id :: id in s.events ==> s.events[id] != [] || Count(s, id) > 0)
    && (c.perMin > 0 ==> forall id :: id in s.events ==> |s.events[id]| <= c.perMin)
    && (c.perMin <= 0 ==> s.events == map[])
    && (c.maxInflight > 0 ==> forall id :: id in s.inflight ==> s.inflight[id] <= c.maxInflight)
  }

  lemma {:induction false} LiveIsShorter(w: seq<real>, now: real)
    ensures |Live(w, now)| <= |w|
  {
    if w != [] && now - w[0] >= WINDOW_S {
      LiveIsShorter(w[1..], now);
    }
  }

  lemma AcquireKeepsTidy(c: Config, s: Limiter, id: string, now: real)
    requires Tidy(c, s)
    ensures Tidy(c, AcquireStep(c, s, id, now).0)
  {
    LiveIsShorter(Window(s, id), now);
  }

  lemma ReleaseKeepsTidy(c: Config, s: Limiter, id: string)
    requires Tidy(c, s)
    ensures Tidy(c, ReleaseStep(s, id))
    ensures forall i :: Window(ReleaseStep(s, id), i) == Window(s, i)
    ensures forall i :: Count(ReleaseStep(s, id), i) ==
              if i == id && Count(s, i) > 0 then Count(s, i) - 1 else Count(s, i)
  {
  }

  lemma {:induction false} RunIsTidy(c: Config, ops: seq<Op>)
    ensures Tidy(c, Run(c, ops))
  {
    if ops != [] {
      var op := ops[|ops| - 1];
      RunIsTidy(c, ops[..|ops| - 1]);
      match op
      case Acquire(id, now) => AcquireKeepsTidy(c, Run(c, ops[..|ops| - 1]), id, now);
      case Release(id) => ReleaseKeepsTidy(c, Run(c, ops[..|ops| - 1]), id);
    }
  }

  /** A release drops the entry of an identity exactly when it leaves nothing in flight and the deque is
      empty already: it does not prune, so a deque of expired events stays. */
  lemma ReleaseDropsEntryExactly(c: Config, s: Limiter, id: string)
    requires Tidy(c, s)
    ensures id !in ReleaseStep(s, id).events <==>
            id !in s.events || (Count(ReleaseStep(s, id), id) == 0 && s.events[id] == [])
  {
  }

  /** The verdict of the last acquire of id. */
  function LastVerdict(c: Config, ops: seq<Op>, id: string): Outcome {
    if ops == [] then Admitted
    else
      var before, op := ops[..|ops| - 1], ops[|ops| - 1];
      if op.Acquire? && op.id == id then AcquireStep(c, Run(c, before), id, op.now).1 else LastVerdict(c, before, id)
  }

  /** In every run, only a concurrency rejection leaves an empty deque behind. */
  lemma {:induction false} EmptyDequeWasRejected(c: Config, ops: seq<Op>, id: string)
    ensures id in Run(c, ops).events && Run(c, ops).events[id] == [] ==>
            LastVerdict(c, ops, id) == Limited(1, TooManyRuns)
  {
    if ops != [] {
      EmptyDequeWasRejected(c, ops[..|ops| - 1], id);
      RunIsTidy(c, ops[..|ops| - 1]);
    }
  }

  /** So an identity that is admitted once and then idle keeps its entry for good, whatever others do. */
  lemma {:induction false} IdleEntryStays(c: Config, ops: seq<Op>, more: seq<Op>, id: string)
    requires Window(Run(c, ops), id) != [] && forall i :: 0 <= i < |more| ==> more[i] == Release(id) || more[i].id != id
    ensures Window(Run(c, ops + more), id) == Window(Run(c, ops), id) && id in Run(c, ops + more).events
  {
    if more == [] {
      assert ops + more == ops;
    } else {
      var p := more[..|more| - 1];
      var op := more[|more| - 1];
      IdleEntryStays(c, ops, p, id);
      assert (ops + more)[..|ops + more| - 1] == ops + p && (ops + more)[|ops + more| - 1] == op;
      assert Run(c, ops + more) == Apply(c, Run(c, ops + p), op);
    }
  }

  /** Runs of id admitted and not yet released; a release with nothing outstanding is ignored. */
  function Outstanding(c: Config, ops: seq<Op>, id: string): nat {
    if ops == [] then 0
    else
      var before, op := ops[..|ops| - 1], ops[|ops| - 1];
      var n := Outstanding(c, before, id);
      if op.id != id then n
      else match op
        case Acquire(_, now) => if AcquireStep(c, Run(c, before), id, now).1.Admitted? then n + 1 else n
        case Release(_) => if n > 0 then n - 1 else 0
  }

  lemma {:induction false} CountIsOutstanding(c: Config, ops: seq<Op>, id: string)
    ensures Count(Run(c, ops), id) == Outstanding(c, ops, id)
  {
    if ops != [] {
      var p, op := ops[..|ops| - 1], ops[|ops| - 1];
      CountIsOutstanding(c, p, id);
      RunIsTidy(c, p);
      if op.Release? {
        ReleaseKeepsTidy(c, Run(c, p), op.id);
      }
    }
  }

  /** The verdict of acquire, told from the whole past: the rate cap looks at the admissions of the last
      minute and goes first, the concurrency cap at the runs outstanding. */
  lemma AcquireDecidesByHistory(c: Config, ops: seq<Op>, id: string, now: real)
    requires Clocked(ops) && NotAfter(ops, now)
    ensures AcquireStep(c, Run(c, ops), id, now).1 ==
            var recent := Recent(History(c, ops, id), now);
            if c.perMin > 0 && |recent| >= c.perMin then
              Limited(Hint(60.0 - (now - recent[0])), TooManyRequests)
            else if c.maxInflight > 0 && Outstanding(c, ops, id) >= c.maxInflight then
              Limited(1, TooManyRuns)
            else
              Admitted
  {
    CountIsOutstanding(c, ops, id);
    if c.perMin > 0 {
      WindowIsUnexpiredHistory(c, ops, id, now);
    }
  }

  // ---------------------------------------------------------------- Retry-After

  /** Seconds until the oldest event of a full window leaves it. */
  function Remaining(s: Limiter, id: string, now: real): real
    requires Window(s, id) != []
  {
    60.0 - (now - Window(s, id)[0])
  }

  ghost predicate RateRejects(c: Config, s: Limiter, id: string, now: real) {
    AcquireStep(c, s, id, now).1.Limited? && AcquireStep(c, s, id, now).1.reason == TooManyRequests
  }

  /** The state a rate rejection leaves, in any run: a full deque, all of it unexpired. */
  lemma RejectionLeavesFullWindow(c: Config, ops: seq<Op>, id: string, now: real)
    requires Clocked(ops) && NotAfter(ops, now) && RateRejects(c, Run(c, ops), id, now)
    ensures var w := Window(AcquireStep(c, Run(c, ops), id, now).0, id);
            c.perMin > 0 && |w| == c.perMin && now - 60.0 < w[0] <= now
  {
    RunIsTidy(c, ops);
    WindowIsUnexpiredHistory(c, ops, id, now);
    FullIsUnexpired(Window(Run(c, ops), id), now);
  }

  lemma FullIsUnexpired(w: seq<real>, now: real)
    requires UpTo(w, now)
    ensures |Live(w, now)| <= |w|
    ensures Live(w, now) != [] ==> now - WINDOW_S < Live(w, now)[0] <= now
  {
    LiveIsSuffix(w, now);
  }

  lemma FullWindowFrees(c: Config, s: Limiter, id: string, later: real)
    requires c.perMin > 0 && |Window(s, id)| == c.perMin
    ensures RateRejects(c, s, id, later) <==> later - Window(s, id)[0] < 60.0
  {
    LiveIsShorter(Window(s, id)[1..], later);
  }

  /** After a rate rejection, a retry d seconds later (nobody else acquiring for this identity) passes
      the rate check exactly when d has reached the remaining time. */
  lemma RetryPassesExactlyFromRemaining(c: Config, ops: seq<Op>, id: string, now: real, d: real)
    requires Clocked(ops) && NotAfter(ops, now) && d >= 0.0
    requires RateRejects(c, Run(c, ops), id, now)
    ensures var s := AcquireStep(c, Run(c, ops), id, now).0;
            && |Window(s, id)| == c.perMin
            && 0.0 < Remaining(s, id, now) <= 60.0
            && (RateRejects(c, s, id, now + d) <==> d < Remaining(s, id, now))
  {
    RejectionLeavesFullWindow(c, ops, id, now);
    FullWindowFrees(c, AcquireStep(c, Run(c, ops), id, now).0, id, now + d);
  }

  lemma HintArithmetic(r: real)
    requires r > 0.0
    ensures -1.0 < Hint(r) as real - r < 1.0
    ensures Hint(r) as real >= r <==> r <= 1.0 || r == r.Floor as real
  {
  }

  /** The in-memory hint is never more than a second away from the remaining time, and waiting for it
      is enough exactly when that time is at most one second or a whole number of seconds. */
  lemma HintSufficesExactlyWhenWhole(c: Config, ops: seq<Op>, id: string, now: real)
    requires Clocked(ops) && NotAfter(ops, now)
    requires RateRejects(c, Run(c, ops), id, now)
    ensures var (s, out) := AcquireStep(c, Run(c, ops), id, now);
            var r, hint := Remaining(s, id, now), out.retryAfter as real;
            && -1.0 < hint - r < 1.0
            && (!RateRejects(c, s, id, now + hint) <==> r <= 1.0 || r == r.Floor as real)
  {
    var (s, out) := AcquireStep(c, Run(c, ops), id, now);
    RejectionLeavesFullWindow(c, ops, id, now);
    var r := Remaining(s, id, now);
    FullWindowFrees(c, s, id, now + Hint(r) as real);
    HintArithmetic(r);
  }

  /** A window full since time 0, asked again at 58.5 seconds: the hint of one second is too short. */
  lemma HintCanBeTooShort()
    ensures var c, s := Config(1, 0), Run(Config(1, 0), [Acquire("u", 0.0)]);
            var (s', out) := AcquireStep(c, s, "u", 58.5);
            out == Limited(1, TooManyRequests) && RateRejects(c, s', "u", 59.5)
  {
    var c, op := Config(1, 0), Acquire("u", 0.0);
    assert [op][..0] == [] && [op][0] == op;
    assert Run(c, [op]) == Apply(c, Run(c, []), op);
    var s := Run(c, [op]);
    assert Window(s, "u") == [0.0];
    assert Live([0.0], 58.5) == [0.0] && Live([0.0], 59.5) == [0.0];
    assert (1.5).Floor == 1;
  }
}
