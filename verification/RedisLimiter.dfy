/** The shared rate limiter, app/backends.py: the two Lua scripts run atomically, so any interleaving of
    any number of nodes is one sequence of scripts. The theorem is that this sequence gets the verdicts
    one in-memory limiter would give. */
module RedisLimiter {
  import opened Redis
  import opened RateLimit

  const COUNTER_TTL_S: real := 3600.0

  datatype Server = Server(events: map<string, Key<ZSet>>, counters: map<string, Key<int>>)

  function Enabled(c: Config): bool { c.perMin > 0 || c.maxInflight > 0 }

  function Pruned(s: Server, id: string, now: real): ZSet {
    ZRemRangeByScore(Get(s.events, id, now, []), 0.0, now - WINDOW_S)
  }

  /** _RL_ACQUIRE, behind the test for enabled() */
  function AcquireScript(c: Config, s: Server, id: string, now: real, token: string): (Server, Outcome) {
    if !Enabled(c) then (s, Admitted)
    else
      var z := Pruned(s, id, now);
      var s' := if c.perMin > 0 then s.(events := Shrink(s.events, id, now, z)) else s;
      if c.perMin > 0 && |z| >= c.perMin then
        (s', Limited(Max(1, Ceil(z[0].score + WINDOW_S - now)), TooManyRequests))
      else
        var inf := Get(s.counters, id, now, 0);
        if c.maxInflight > 0 && inf >= c.maxInflight then (s', Limited(1, TooManyRuns))
        else
          (Server(if c.perMin > 0
                  then s'.events[id := Key(ZAdd(z, now, token), now + (Ceil(WINDOW_S) + 1) as real)]
                  else s'.events,
                  s'.counters[id := Key(inf + 1, now + COUNTER_TTL_S)]), Admitted)
  }

  /** _RL_RELEASE */
  function ReleaseScript(c: Config, s: Server, id: string, now: real): Server {
    var inf := Get(s.counters, id, now, 0);
    if Enabled(c) && inf > 0 then s.(counters := s.counters[id := Key(inf - 1, s.counters[id].expires)]) else s
  }

  class RedisRateLimiter {
    const cfg: Config
    var events: map<string, Key<ZSet>>
    var counters: map<string, Key<int>>

    ghost function State(): Server
      reads this
    {
      Server(events, counters)
    }

    constructor (perMin: int, maxInflight: int)
      ensures cfg == Config(perMin, maxInflight) && State() == Server(map[], map[])
    {
      cfg := Config(perMin, maxInflight);
      events, counters := map[], map[];
    }

    method Acquire(id: string, now: real, token: string) returns (out: Outcome)
      modifies this
      ensures (State(), out) == AcquireScript(cfg, old(State()), id, now, token)
    {
      if !Enabled(cfg) {
        return Admitted;
      }
      var z := [];
      if cfg.perMin > 0 {
        z := ZRemRangeByScore(Get(events, id, now, []), 0.0, now - WINDOW_S);
        events := Shrink(events, id, now, z);
        if |z| >= cfg.perMin {
          return Limited(Max(1, Ceil(z[0].score + WINDOW_S - now)), TooManyRequests);
        }
      }
      var inf := Get(counters, id, now, 0);
      if cfg.maxInflight > 0 && inf >= cfg.maxInflight {
        return Limited(1, TooManyRuns);
      }
      if cfg.perMin > 0 {
        events := events[id := Key(ZAdd(z, now, token), now + (Ceil(WINDOW_S) + 1) as real)];
      }
      counters := counters[id := Key(inf + 1, now + COUNTER_TTL_S)];
      return Admitted;
    }

    method Release(id: string, now: real)
      modifies this
      ensures State() == ReleaseScript(cfg, old(State()), id, now)
    {
      if Enabled(cfg) && Get(counters, id, now, 0) > 0 {
        counters := counters[id := Key(counters[id].value - 1, counters[id].expires)];
      }
    }
  }

  // ---------------------------------------------------------------- interleavings of nodes

  datatype Script = AcquireCall(id: string, now: real, token: string) | ReleaseCall(id: string, now: real)

  function Apply(c: Config, s: Server, op: Script): Server {
    match op
    case AcquireCall(id, now, token) => AcquireScript(c, s, id, now, token).0
    case ReleaseCall(id, now) => ReleaseScript(c, s, id, now)
  }

  function Serve(c: Config, ops: seq<Script>): Server {
    if ops == [] then Server(map[], map[])
    else Apply(c, Serve(c, ops[..|ops| - 1]), ops[|ops| - 1])
  }

  /** The same calls made on one in-memory limiter. */
  function InMemory(op: Script): RateLimit.Op {
    match op
    case AcquireCall(id, now, _) => RateLimit.Acquire(id, now)
    case ReleaseCall(id, _) => RateLimit.Release(id)
  }

  function Memory(c: Config, ops: seq<Script>): Limiter {
    if ops == [] then Limiter(map[], map[])
    else RateLimit.Apply(c, Memory(c, ops[..|ops| - 1]), InMemory(ops[|ops| - 1]))
  }

  /** One clock for all nodes, starting at or after zero, and never the same token twice. */
  ghost predicate WellTimed(ops: seq<Script>) {
    && (forall i :: 0 <= i < |ops| ==> 0.0 <= ops[i].now)
    && (forall i, j :: 0 <= i < j < |ops| ==> ops[i].now <= ops[j].now)
    && (forall i, j :: 0 <= i < j < |ops| && ops[i].AcquireCall? && ops[j].AcquireCall? ==>
        ops[i].token != ops[j].token)
  }

  /** A counter still positive has passed its expiry. */
  predicate Lapsed(s: Server, id: string, now: real) {
    id in s.counters && s.counters[id].value > 0 && now > s.counters[id].expires
  }

  ghost predicate NeverLapsed(c: Config, ops: seq<Script>) {
    forall k :: 0 <= k < |ops| ==> !Lapsed(Serve(c, ops[..k]), ops[k].id, ops[k].now)
  }

  function RawEvents(s: Server, id: string): ZSet { if id in s.events then s.events[id].value else [] }

  function RawCount(s: Server, id: string): int { if id in s.counters then s.counters[id].value else 0 }

  /** What the server's sorted set and the limiter's deque of one identity have in common. */
  ghost predicate EventsAgree(s: Server, m: Limiter, id: string, t: real, used: set<string>) {
    && Scores(RawEvents(s, id)) == Window(m, id)
    && UpTo(Window(m, id), t)
    && (forall e :: e in RawEvents(s, id) ==> 0.0 <= e.score && e.member in used)
    && (id in s.events ==> forall e :: e in s.events[id].value ==> e.score + WINDOW_S + 1.0 <= s.events[id].expires)
  }

  ghost predicate CountsAgree(c: Config, s: Server, m: Limiter, id: string) {
    Enabled(c) ==> RawCount(s, id) == Count(m, id)
  }

  ghost predicate Agree(c: Config, s: Server, m: Limiter, id: string, t: real, used: set<string>) {
    EventsAgree(s, m, id, t, used) && CountsAgree(c, s, m, id)
  }

  ghost predicate Simulates(c: Config, s: Server, m: Limiter, t: real, used: set<string>) {
    && Tidy(c, m)
    && (!Enabled(c) ==> s == Server(map[], map[]))
    && forall id :: Agree(c, s, m, id, t, used)
  }

  /** Same verdict for the same reason; the hints round the same remaining time up and down. */
  predicate SameVerdict(a: Outcome, b: Outcome) {
    match a
    case Admitted => b.Admitted?
    case Limited(retry, reason) => b.Limited? && reason == b.reason && b.retryAfter <= retry <= b.retryAfter + 1
  }

  lemma {:induction false} RemovalIsRecent(z: ZSet, now: real)
    requires forall e :: e in z ==> 0.0 <= e.score
    ensures Scores(ZRemRangeByScore(z, 0.0, now - WINDOW_S)) == Recent(Scores(z), now)
  {
    if z != [] {
      var rest := ZRemRangeByScore(z[1..], 0.0, now - WINDOW_S);
      assert z[0] in z;
      RemovalIsRecent(z[1..], now);
      assert ([z[0]] + rest)[1..] == rest && [] + rest == rest;
      assert [] + Recent(Scores(z[1..]), now) == Recent(Scores(z[1..]), now);
    }
  }

  lemma {:induction false} ExpiredScores(z: ZSet, now: real)
    requires forall e :: e in z ==> now - e.score >= WINDOW_S
    ensures Live(Scores(z), now) == []
  {
    if z != [] {
      assert z[0] in z;
      ExpiredScores(z[1..], now);
    }
  }

  /** What the script finds after its ZREMRANGEBYSCORE is what the popleft loop leaves, expired key or not. */
  lemma PruningAgrees(s: Server, m: Limiter, id: string, t: real, used: set<string>, now: real)
    requires EventsAgree(s, m, id, t, used) && t <= now
    ensures Scores(Pruned(s, id, now)) == Live(Window(m, id), now)
    ensures |Pruned(s, id, now)| == |Live(Window(m, id), now)|
    ensures Pruned(s, id, now) != [] ==> Pruned(s, id, now)[0].score == Live(Window(m, id), now)[0]
  {
    var raw := RawEvents(s, id);
    ScoresIndex(Pruned(s, id, now));
    if Get(s.events, id, now, []) == raw {
      RemovalIsRecent(raw, now);
      LiveIsRecent(Scores(raw), now);
    } else {
      ExpiredScores(raw, now);
    }
  }

  /** One acquire: the verdicts differ exactly when a counter has lapsed while its runs were still held
      and the concurrency cap was what should have stopped the request. */
  lemma AcquireAgreesUnlessLapsed(c: Config, s: Server, m: Limiter, t: real, used: set<string>, id: string, now: real,
      token: string)
    requires Simulates(c, s, m, t, used) && t <= now
    ensures SameVerdict(AcquireScript(c, s, id, now, token).1, AcquireStep(c, m, id, now).1) <==>
            !(Lapsed(s, id, now) && 0 < c.maxInflight <= Count(m, id)
              && (c.perMin > 0 ==> |Live(Window(m, id), now)| < c.perMin))
  {
    assert Agree(c, s, m, id, t, used);
    PruningAgrees(s, m, id, t, used, now);
  }

  lemma EventsAgreeLater(s: Server, m: Limiter, id: string, t: real, used: set<string>, now: real, token: string)
    requires EventsAgree(s, m, id, t, used) && t <= now
    ensures EventsAgree(s, m, id, now, used + {token})
  {
  }

  /** Where ties put the new entry does not show in the scores. */
  lemma {:induction false} InsertLatest(z: ZSet, e: Entry)
    requires UpTo(Scores(z), e.score)
    ensures Scores(Insert(z, e)) == Scores(z) + [e.score]
  {
    if z != [] {
      var w := Scores(z);
      assert w[1..] == Scores(z[1..]);
      if Before(e, z[0]) {
        assert forall i :: 0 <= i < |w| ==> w[0] <= w[i] <= e.score;
        assert ([e] + z)[1..] == z;
        assert [e.score] + w == w + [e.score];
      } else {
        InsertLatest(z[1..], e);
        assert ([z[0]] + Insert(z[1..], e))[1..] == Insert(z[1..], e);
      }
    }
  }

  /** An admission appends to both. */
  lemma AddAgrees(z: ZSet, w: seq<real>, t: real, used: set<string>, now: real, token: string)
    requires Scores(z) == w && UpTo(w, t) && t <= now && 0.0 <= now && token !in used
    requires forall e :: e in z ==> 0.0 <= e.score && e.member in used
    ensures Scores(ZAdd(z, now, token)) == w + [now] && UpTo(w + [now], now)
    ensures forall e :: e in ZAdd(z, now, token) ==> 0.0 <= e.score && e.member in used + {token}
  {
    WithoutAbsent(z, token);
    InsertLatest(z, Entry(now, token));
    InsertMembers(z, Entry(now, token));
    SnocIsUpTo(w, t, now);
  }

  lemma {:induction false} ScoresBound(z: ZSet, t: real)
    requires UpTo(Scores(z), t)
    ensures forall e :: e in z ==> e.score <= t
  {
    if z != [] {
      assert Scores(z)[0] <= t && Scores(z)[1..] == Scores(z[1..]);
      ScoresBound(z[1..], t);
    }
  }

  lemma PrunedEntries(s: Server, m: Limiter, id: string, t: real, used: set<string>, now: real)
    requires EventsAgree(s, m, id, t, used)
    ensures forall e :: e in Pruned(s, id, now) ==> 0.0 <= e.score && e.member in used
    ensures id in s.events ==> forall e :: e in Pruned(s, id, now) ==> e.score + WINDOW_S + 1.0 <= s.events[id].expires
  {
    RemovalSelects(Get(s.events, id, now, []), 0.0, now - WINDOW_S);
  }

  lemma ShrinkAgrees(s: Server, m: Limiter, id: string, t: real, used: set<string>, now: real)
    requires EventsAgree(s, m, id, t, used) && t <= now
    ensures EventsAgree(s.(events := Shrink(s.events, id, now, Pruned(s, id, now))),
                        m.(events := m.events[id := Live(Window(m, id), now)]), id, now, used)
  {
    PruningAgrees(s, m, id, t, used, now);
    PrunedEntries(s, m, id, t, used, now);
    LiveIsUpTo(Window(m, id), now, now);
  }

  lemma AdmitAgrees(s: Server, m: Limiter, id: string, t: real, used: set<string>, now: real, token: string)
    requires EventsAgree(s, m, id, t, used) && t <= now && 0.0 <= now && token !in used
    ensures EventsAgree(s.(events := s.events[id := Key(ZAdd(Pruned(s, id, now), now, token), now + 61.0)]),
                        m.(events := m.events[id := Live(Window(m, id), now) + [now]]), id, now, used + {token})
  {
    PruningAgrees(s, m, id, t, used, now);
    PrunedEntries(s, m, id, t, used, now);
    LiveIsUpTo(Window(m, id), now, now);
    AddAgrees(Pruned(s, id, now), Live(Window(m, id), now), now, used, now, token);
    ScoresBound(ZAdd(Pruned(s, id, now), now, token), now);
  }

  lemma AcquireKeepsEvents(c: Config, s: Server, m: Limiter, t: real, used: set<string>, id: string, now: real,
      token: string)
    requires EventsAgree(s, m, id, t, used) && t <= now && 0.0 <= now && token !in used && Enabled(c)
    requires AcquireScript(c, s, id, now, token).1.Admitted? <==> AcquireStep(c, m, id, now).1.Admitted?
    ensures EventsAgree(AcquireScript(c, s, id, now, token).0, AcquireStep(c, m, id, now).0, id, now, used + {token})
  {
    EventsAgreeLater(s, m, id, t, used, now, token);
    if c.perMin > 0 {
      if AcquireStep(c, m, id, now).1.Admitted? {
        AdmitAgrees(s, m, id, t, used, now, token);
        assert (Ceil(WINDOW_S) + 1) as real == 61.0;
      } else {
        ShrinkAgrees(s, m, id, t, used, now);
      }
    }
  }

  lemma AcquireKeepsAgreement(c: Config, s: Server, m: Limiter, t: real, used: set<string>, id: string, now: real,
      token: string)
    requires Simulates(c, s, m, t, used) && t <= now && 0.0 <= now && token !in used
    requires Enabled(c) && !Lapsed(s, id, now)
    ensures Agree(c, AcquireScript(c, s, id, now, token).0, AcquireStep(c, m, id, now).0, id, now, used + {token})
  {
    assert Agree(c, s, m, id, t, used);
    AcquireAgreesUnlessLapsed(c, s, m, t, used, id, now, token);
    AcquireKeepsEvents(c, s, m, t, used, id, now, token);
  }

  lemma OthersAgree(c: Config, s: Server, m: Limiter, t: real, used: set<string>, id: string, now: real,
      token: string, other: string)
    requires Agree(c, s, m, other, t, used) && t <= now && (other != id || !Enabled(c))
    ensures Agree(c, AcquireScript(c, s, id, now, token).0, AcquireStep(c, m, id, now).0, other, now, used + {token})
  {
    EventsAgreeLater(s, m, other, t, used, now, token);
    var s', m' := AcquireScript(c, s, id, now, token).0, AcquireStep(c, m, id, now).0;
    assert RawEvents(s', other) == RawEvents(s, other) && Window(m', other) == Window(m, other);
  }

  lemma AcquireKeepsSimulation(c: Config, s: Server, m: Limiter, t: real, used: set<string>, id: string, now: real,
      token: string)
    requires Simulates(c, s, m, t, used) && t <= now && 0.0 <= now && token !in used
    requires !Lapsed(s, id, now)
    ensures Simulates(c, AcquireScript(c, s, id, now, token).0, AcquireStep(c, m, id, now).0, now, used + {token})
  {
    AcquireKeepsTidy(c, m, id, now);
    var s', m' := AcquireScript(c, s, id, now, token).0, AcquireStep(c, m, id, now).0;
    forall i ensures Agree(c, s', m', i, now, used + {token}) {
      assert Agree(c, s, m, i, t, used);
      if i == id && Enabled(c) {
        AcquireKeepsAgreement(c, s, m, t, used, id, now, token);
      } else {
        OthersAgree(c, s, m, t, used, id, now, token, i);
      }
    }
  }

  lemma ReleaseKeepsSimulation(c: Config, s: Server, m: Limiter, t: real, used: set<string>, id: string, now: real)
    requires Simulates(c, s, m, t, used) && t <= now
    requires !Lapsed(s, id, now)
    ensures Simulates(c, ReleaseScript(c, s, id, now), RateLimit.ReleaseStep(m, id), now, used)
  {
    ReleaseKeepsTidy(c, m, id);
    var s', m' := ReleaseScript(c, s, id, now), RateLimit.ReleaseStep(m, id);
    forall i ensures Agree(c, s', m', i, now, used) {
      assert Agree(c, s, m, i, t, used);
      assert Agree(c, s, m, id, t, used);
    }
  }

  function Tokens(ops: seq<Script>): set<string> {
    set i | 0 <= i < |ops| && ops[i].AcquireCall? :: ops[i].token
  }

  function Now(ops: seq<Script>): real { if ops == [] then 0.0 else ops[|ops| - 1].now }

  lemma LastIsTimed(p: seq<Script>, op: Script)
    requires WellTimed(p + [op])
    ensures WellTimed(p) && 0.0 <= op.now && Now(p) <= op.now
    ensures op.AcquireCall? ==> op.token !in Tokens(p)
  {
    var all := p + [op];
    assert forall i :: 0 <= i < |p| ==> all[i] == p[i];
    assert all[|p|] == op;
  }

  lemma LastHasNotLapsed(c: Config, p: seq<Script>, op: Script)
    requires NeverLapsed(c, p + [op])
    ensures NeverLapsed(c, p) && !Lapsed(Serve(c, p), op.id, op.now)
  {
    var all := p + [op];
    assert all[..|p|] == p && all[|p|] == op;
    forall k | 0 <= k < |p| ensures !Lapsed(Serve(c, p[..k]), p[k].id, p[k].now) {
      assert all[..k] == p[..k] && all[k] == p[k];
    }
  }

  lemma TokensSnoc(p: seq<Script>, op: Script)
    ensures Tokens(p + [op]) == if op.AcquireCall? then Tokens(p) + {op.token} else Tokens(p)
  {
    var all := p + [op];
    assert all[|p|] == op;
    assert forall i :: 0 <= i < |p| ==> all[i] == p[i];
  }

  lemma StepKeepsSimulation(c: Config, s: Server, m: Limiter, t: real, used: set<string>, op: Script)
    requires Simulates(c, s, m, t, used) && t <= op.now && 0.0 <= op.now && !Lapsed(s, op.id, op.now)
    requires op.AcquireCall? ==> op.token !in used
    ensures Simulates(c, Apply(c, s, op), RateLimit.Apply(c, m, InMemory(op)), op.now,
                      if op.AcquireCall? then used + {op.token} else used)
  {
    match op
    case AcquireCall(id, now, token) => AcquireKeepsSimulation(c, s, m, t, used, id, now, token);
    case ReleaseCall(id, now) => ReleaseKeepsSimulation(c, s, m, t, used, id, now);
  }

  lemma {:induction false} ServeSimulates(c: Config, ops: seq<Script>)
    requires WellTimed(ops) && NeverLapsed(c, ops)
    ensures Simulates(c, Serve(c, ops), Memory(c, ops), Now(ops), Tokens(ops))
  {
    if ops != [] {
      var p, op := ops[..|ops| - 1], ops[|ops| - 1];
      assert p + [op] == ops;
      LastIsTimed(p, op);
      LastHasNotLapsed(c, p, op);
      TokensSnoc(p, op);
      ServeSimulates(c, p);
      StepKeepsSimulation(c, Serve(c, p), Memory(c, p), Now(p), Tokens(p), op);
    }
  }

  /** Server and limiter just before the last script of a run. */
  lemma SimulatesBefore(c: Config, ops: seq<Script>, op: Script)
    requires WellTimed(ops + [op]) && NeverLapsed(c, ops + [op])
    ensures Simulates(c, Serve(c, ops), Memory(c, ops), Now(ops), Tokens(ops))
    ensures 0.0 <= op.now && Now(ops) <= op.now && !Lapsed(Serve(c, ops), op.id, op.now)
    ensures op.AcquireCall? ==> op.token !in Tokens(ops)
  {
    LastIsTimed(ops, op);
    LastHasNotLapsed(c, ops, op);
    ServeSimulates(c, ops);
  }

  /** Any interleaving of scripts from any nodes admits and rejects, for the same reasons, exactly what
      one in-memory limiter would, as long as no counter lapses while its runs are held. */
  lemma SharedLimiterActsAsOne(c: Config, ops: seq<Script>, id: string, now: real, token: string)
    requires WellTimed(ops + [AcquireCall(id, now, token)]) && NeverLapsed(c, ops + [AcquireCall(id, now, token)])
    ensures SameVerdict(AcquireScript(c, Serve(c, ops), id, now, token).1, AcquireStep(c, Memory(c, ops), id, now).1)
  {
    SimulatesBefore(c, ops, AcquireCall(id, now, token));
    AcquireAgreesUnlessLapsed(c, Serve(c, ops), Memory(c, ops), Now(ops), Tokens(ops), id, now, token);
  }

  predicate RateRefused(out: Outcome) { out.Limited? && out.reason == TooManyRequests }

  /** The shared hint is always long enough: after a rate rejection, the same identity passes the rate
      check again once it has waited for as long as it was told to. */
  lemma SharedHintSuffices(c: Config, ops: seq<Script>, id: string, now: real, token: string, token': string)
    requires WellTimed(ops + [AcquireCall(id, now, token)]) && NeverLapsed(c, ops + [AcquireCall(id, now, token)])
    requires RateRefused(AcquireScript(c, Serve(c, ops), id, now, token).1)
    ensures var p := AcquireScript(c, Serve(c, ops), id, now, token);
            !RateRefused(AcquireScript(c, p.0, id, now + p.1.retryAfter as real, token').1)
  {
    SimulatesBefore(c, ops, AcquireCall(id, now, token));
    HintSufficesAt(c, Serve(c, ops), Memory(c, ops), Now(ops), Tokens(ops), id, now, token, token');
  }

  /** And never longer than it need be: after fewer whole seconds it would still be refused. */
  lemma SharedHintIsLeast(c: Config, ops: seq<Script>, id: string, now: real, token: string, token': string, d: int)
    requires WellTimed(ops + [AcquireCall(id, now, token)]) && NeverLapsed(c, ops + [AcquireCall(id, now, token)])
    requires RateRefused(AcquireScript(c, Serve(c, ops), id, now, token).1)
    requires 1 <= d < AcquireScript(c, Serve(c, ops), id, now, token).1.retryAfter
    ensures RateRefused(AcquireScript(c, AcquireScript(c, Serve(c, ops), id, now, token).0, id, now + d as real,
        token').1)
  {
    SimulatesBefore(c, ops, AcquireCall(id, now, token));
    SoonerIsRefused(c, Serve(c, ops), Memory(c, ops), Now(ops), Tokens(ops), id, now, token, token', d);
  }

  lemma HintSufficesAt(c: Config, s: Server, m: Limiter, t: real, used: set<string>, id: string, now: real,
      token: string, token': string)
    requires Simulates(c, s, m, t, used) && t <= now && 0.0 <= now && token !in used && !Lapsed(s, id, now)
    requires RateRefused(AcquireScript(c, s, id, now, token).1)
    ensures var p := AcquireScript(c, s, id, now, token);
            !RateRefused(AcquireScript(c, p.0, id, now + p.1.retryAfter as real, token').1)
  {
    var m' := AcquireStep(c, m, id, now).0;
    var (s', out) := AcquireScript(c, s, id, now, token);
    var later := now + out.retryAfter as real;
    AcquireAgreesUnlessLapsed(c, s, m, t, used, id, now, token);
    AcquireKeepsAgreement(c, s, m, t, used, id, now, token);
    SharedRejectionIsFull(c, s, m, t, used, id, now, token);
    PruningAgrees(s', m', id, now, used + {token}, later);
    LiveIsShorter(Window(m', id)[1..], later);
  }

  lemma SoonerIsRefused(c: Config, s: Server, m: Limiter, t: real, used: set<string>, id: string, now: real,
      token: string, token': string, d: int)
    requires Simulates(c, s, m, t, used) && t <= now && 0.0 <= now && token !in used && !Lapsed(s, id, now)
    requires RateRefused(AcquireScript(c, s, id, now, token).1)
    requires 1 <= d < AcquireScript(c, s, id, now, token).1.retryAfter
    ensures RateRefused(AcquireScript(c, AcquireScript(c, s, id, now, token).0, id, now + d as real, token').1)
  {
    var m' := AcquireStep(c, m, id, now).0;
    var s' := AcquireScript(c, s, id, now, token).0;
    AcquireAgreesUnlessLapsed(c, s, m, t, used, id, now, token);
    AcquireKeepsAgreement(c, s, m, t, used, id, now, token);
    SharedRejectionIsFull(c, s, m, t, used, id, now, token);
    PruningAgrees(s', m', id, now, used + {token}, now + d as real);
  }

  lemma SharedRejectionIsFull(c: Config, s: Server, m: Limiter, t: real, used: set<string>, id: string, now: real,
      token: string)
    requires Simulates(c, s, m, t, used) && t <= now
    requires RateRejects(c, m, id, now)
    ensures var w := Window(AcquireStep(c, m, id, now).0, id);
            var out := AcquireScript(c, s, id, now, token).1;
            |w| == c.perMin > 0 && out.Limited? && now + out.retryAfter as real - w[0] >= WINDOW_S &&
            (out.retryAfter == 1 || now + (out.retryAfter - 1) as real - w[0] < WINDOW_S)
  {
    assert Agree(c, s, m, id, t, used);
    PruningAgrees(s, m, id, t, used, now);
    LiveIsShorter(Window(m, id), now);
  }

  // ---------------------------------------------------------------- the premise told from times alone

  predicate Admits(c: Config, s: Server, op: Script) {
    op.AcquireCall? && Enabled(c) && AcquireScript(c, s, op.id, op.now, op.token).1.Admitted?
  }

  /** The time of the last acquire of id that the server admitted, or before if there is none. */
  function LastAdmitted(c: Config, ops: seq<Script>, id: string, before: real): real {
    if ops == [] then before
    else
      var p, op := ops[..|ops| - 1], ops[|ops| - 1];
      if op.id == id && Admits(c, Serve(c, p), op) then op.now else LastAdmitted(c, p, id, before)
  }

  /** Every call of an identity comes no later than an hour after its last admitted acquire. */
  ghost predicate WithinTheHour(c: Config, ops: seq<Script>) {
    forall k :: 0 <= k < |ops| ==> ops[k].now <= LastAdmitted(c, ops[..k], ops[k].id, ops[k].now) + 3600.0
  }

  /** A counter expires an hour after the last admitted acquire. */
  lemma {:induction false} CounterLastsAnHour(c: Config, ops: seq<Script>, id: string, before: real)
    ensures id in Serve(c, ops).counters ==>
              Serve(c, ops).counters[id].expires == LastAdmitted(c, ops, id, before) + 3600.0
  {
    if ops != [] {
      var p, op := ops[..|ops| - 1], ops[|ops| - 1];
      CounterLastsAnHour(c, p, id, before);
      CounterAfter(c, Serve(c, p), op, id);
    }
  }

  lemma CounterAfter(c: Config, s: Server, op: Script, id: string)
    ensures id in Apply(c, s, op).counters ==>
              if op.id == id && Admits(c, s, op) then Apply(c, s, op).counters[id].expires == op.now + 3600.0
              else id in s.counters && Apply(c, s, op).counters[id].expires == s.counters[id].expires
  {
  }

  /** Then no counter lapses while runs are held. */
  lemma HourlyCallsNeverLapse(c: Config, ops: seq<Script>)
    requires WithinTheHour(c, ops)
    ensures NeverLapsed(c, ops)
  {
    forall k | 0 <= k < |ops| ensures !Lapsed(Serve(c, ops[..k]), ops[k].id, ops[k].now) {
      CounterLastsAnHour(c, ops[..k], ops[k].id, ops[k].now);
    }
  }

  /** So, with calls within the hour, any interleaving of scripts from any nodes admits and rejects as one
      in-memory limiter does. */
  lemma SharedLimiterActsAsOneWithinTheHour(c: Config, ops: seq<Script>, id: string, now: real, token: string)
    requires WellTimed(ops + [AcquireCall(id, now, token)]) && WithinTheHour(c, ops + [AcquireCall(id, now, token)])
    ensures SameVerdict(AcquireScript(c, Serve(c, ops), id, now, token).1, AcquireStep(c, Memory(c, ops), id, now).1)
  {
    HourlyCallsNeverLapse(c, ops + [AcquireCall(id, now, token)]);
    SharedLimiterActsAsOne(c, ops, id, now, token);
  }

  // ---------------------------------------------------------------- exactly when the verdicts of a run agree

  /** What is left of the agreement when counters may lapse: the events agree, the counter may lag. */
  ghost predicate FollowsAt(c: Config, s: Server, m: Limiter, id: string, t: real, used: set<string>) {
    EventsAgree(s, m, id, t, used) && (Enabled(c) ==> 0 <= Get(s.counters, id, t, 0) <= Count(m, id))
  }

  ghost predicate Follows(c: Config, s: Server, m: Limiter, t: real, used: set<string>) {
    && Tidy(c, m)
    && (!Enabled(c) ==> s == Server(map[], map[]))
    && forall id :: FollowsAt(c, s, m, id, t, used)
  }

  /** The rate cap lets the request pass, the concurrency cap is reached, and the server's counter has lost
      so many of the runs held that it is not. */
  predicate Overlooks(c: Config, s: Server, m: Limiter, id: string, now: real) {
    && (c.perMin > 0 ==> |Live(Window(m, id), now)| < c.perMin)
    && Get(s.counters, id, now, 0) < c.maxInflight <= Count(m, id) && 0 < c.maxInflight
  }

  /** For one acquire. */
  lemma AcquireDiffersExactly(c: Config, s: Server, m: Limiter, t: real, used: set<string>, id: string, now: real,
      token: string)
    requires Follows(c, s, m, t, used) && t <= now
    ensures SameVerdict(AcquireScript(c, s, id, now, token).1, AcquireStep(c, m, id, now).1) <==>
            !Overlooks(c, s, m, id, now)
  {
    assert FollowsAt(c, s, m, id, t, used);
    PruningAgrees(s, m, id, t, used, now);
  }

  lemma AcquireKeepsOwn(c: Config, s: Server, m: Limiter, t: real, used: set<string>, id: string, now: real,
      token: string)
    requires FollowsAt(c, s, m, id, t, used) && t <= now && 0.0 <= now && token !in used && Enabled(c)
    requires SameVerdict(AcquireScript(c, s, id, now, token).1, AcquireStep(c, m, id, now).1)
    ensures FollowsAt(c, AcquireScript(c, s, id, now, token).0, AcquireStep(c, m, id, now).0, id, now, used + {token})
  {
    AcquireKeepsEvents(c, s, m, t, used, id, now, token);
  }

  lemma OthersFollow(c: Config, s: Server, m: Limiter, t: real, used: set<string>, id: string, now: real,
      token: string, other: string)
    requires FollowsAt(c, s, m, other, t, used) && t <= now && (other != id || !Enabled(c))
    ensures FollowsAt(c, AcquireScript(c, s, id, now, token).0, AcquireStep(c, m, id, now).0, other, now,
            used + {token})
  {
    EventsAgreeLater(s, m, other, t, used, now, token);
    var s', m' := AcquireScript(c, s, id, now, token).0, AcquireStep(c, m, id, now).0;
    assert RawEvents(s', other) == RawEvents(s, other) && Window(m', other) == Window(m, other);
  }

  lemma AcquireKeepsFollowing(c: Config, s: Server, m: Limiter, t: real, used: set<string>, id: string, now: real,
      token: string)
    requires Follows(c, s, m, t, used) && t <= now && 0.0 <= now && token !in used
    requires SameVerdict(AcquireScript(c, s, id, now, token).1, AcquireStep(c, m, id, now).1)
    ensures Follows(c, AcquireScript(c, s, id, now, token).0, AcquireStep(c, m, id, now).0, now, used + {token})
  {
    AcquireKeepsTidy(c, m, id, now);
    forall i ensures FollowsAt(c, AcquireScript(c, s, id, now, token).0, AcquireStep(c, m, id, now).0, i, now,
        used + {token}) {
      assert FollowsAt(c, s, m, i, t, used);
      if i == id && Enabled(c) {
        AcquireKeepsOwn(c, s, m, t, used, id, now, token);
      } else {
        OthersFollow(c, s, m, t, used, id, now, token, i);
      }
    }
  }

  lemma ReleaseKeepsFollowing(c: Config, s: Server, m: Limiter, t: real, used: set<string>, id: string, now: real)
    requires Follows(c, s, m, t, used) && t <= now
    ensures Follows(c, ReleaseScript(c, s, id, now), RateLimit.ReleaseStep(m, id), now, used)
  {
    ReleaseKeepsTidy(c, m, id);
    forall i ensures FollowsAt(c, ReleaseScript(c, s, id, now), RateLimit.ReleaseStep(m, id), i, now, used) {
      assert FollowsAt(c, s, m, i, t, used);
    }
  }

  /** Every acquire of the run has the verdict it would have in memory. */
  predicate AllAgree(c: Config, ops: seq<Script>) {
    ops == [] ||
    var p, op := ops[..|ops| - 1], ops[|ops| - 1];
    && AllAgree(c, p)
    && (op.AcquireCall? ==> SameVerdict(AcquireScript(c, Serve(c, p), op.id, op.now, op.token).1,
                                        AcquireStep(c, Memory(c, p), op.id, op.now).1))
  }

  /** No acquire of the run overlooks runs that are held. */
  predicate NoneOverlooked(c: Config, ops: seq<Script>) {
    ops == [] ||
    var p, op := ops[..|ops| - 1], ops[|ops| - 1];
    NoneOverlooked(c, p) && (op.AcquireCall? ==> !Overlooks(c, Serve(c, p), Memory(c, p), op.id, op.now))
  }

  lemma {:induction false} AgreeingRunFollows(c: Config, ops: seq<Script>)
    requires WellTimed(ops) && AllAgree(c, ops)
    ensures Follows(c, Serve(c, ops), Memory(c, ops), Now(ops), Tokens(ops))
  {
    if ops != [] {
      var p, op := ops[..|ops| - 1], ops[|ops| - 1];
      assert p + [op] == ops;
      LastIsTimed(p, op);
      TokensSnoc(p, op);
      AgreeingRunFollows(c, p);
      match op
      case AcquireCall(id, now, token) => AcquireKeepsFollowing(c, Serve(c, p), Memory(c, p), Now(p), Tokens(p), id,
          now, token);
      case ReleaseCall(id, now) => ReleaseKeepsFollowing(c, Serve(c, p), Memory(c, p), Now(p), Tokens(p), id, now);
    }
  }

  /** Whether counters lapse or not: all verdicts of a run are those of one in-memory limiter exactly when no
      acquire of it overlooks runs that are held. */
  lemma {:induction false} RunAgreesExactly(c: Config, ops: seq<Script>)
    requires WellTimed(ops)
    ensures AllAgree(c, ops) <==> NoneOverlooked(c, ops)
  {
    if ops != [] {
      var p, op := ops[..|ops| - 1], ops[|ops| - 1];
      assert p + [op] == ops;
      LastIsTimed(p, op);
      RunAgreesExactly(c, p);
      if AllAgree(c, p) && op.AcquireCall? {
        AgreeingRunFollows(c, p);
        AcquireDiffersExactly(c, Serve(c, p), Memory(c, p), Now(p), Tokens(p), op.id, op.now, op.token);
      }
    }
  }

  // ---------------------------------------------------------------- what holds without the premise

  ghost predicate KeysOk(s: Server) {
    && (forall id :: id in s.counters ==> s.counters[id].value >= 0)
    && (forall id, e :: id in s.events && e in s.events[id].value ==> e.score + WINDOW_S + 1.0 <= s.events[id].expires)
  }

  lemma StepKeepsKeys(c: Config, s: Server, op: Script)
    requires KeysOk(s)
    requires forall id, e :: id in s.events && e in s.events[id].value ==> e.score <= op.now
    ensures KeysOk(Apply(c, s, op))
    ensures forall id, e :: id in Apply(c, s, op).events && e in Apply(c, s, op).events[id].value ==> e.score <= op.now
  {
    if op.AcquireCall? {
      var raw := Get(s.events, op.id, op.now, []);
      var z := Pruned(s, op.id, op.now);
      RemovalSelects(raw, 0.0, op.now - WINDOW_S);
      WithoutSelects(z, op.token);
      InsertMembers(Without(z, op.token), Entry(op.now, op.token));
    }
  }

  /** In every run, lapsed or not: no counter is ever negative, and a key expires only
      when every event it holds has left the window. */
  lemma ExpiryDropsOnlyDeadEvents(c: Config, ops: seq<Script>)
    requires forall i, j :: 0 <= i < j < |ops| ==> ops[i].now <= ops[j].now
    ensures KeysOk(Serve(c, ops))
    ensures forall id, e :: id in Serve(c, ops).events && e in Serve(c, ops).events[id].value ==>
              Serve(c, ops).events[id].expires - e.score >= 60.0
  {
    KeysOkInRun(c, ops, if ops == [] then 0.0 else ops[|ops| - 1].now);
  }

  lemma {:induction false} KeysOkInRun(c: Config, ops: seq<Script>, now: real)
    requires forall i, j :: 0 <= i < j < |ops| ==> ops[i].now <= ops[j].now
    requires forall i :: 0 <= i < |ops| ==> ops[i].now <= now
    ensures KeysOk(Serve(c, ops))
    ensures forall id, e :: id in Serve(c, ops).events && e in Serve(c, ops).events[id].value ==> e.score <= now
  {
    if ops != [] {
      var p, op := ops[..|ops| - 1], ops[|ops| - 1];
      KeysOkInRun(c, p, op.now);
      StepKeepsKeys(c, Serve(c, p), op);
    }
  }

  /** Without the premise the verdicts part: a run held for more than an hour frees its own slot. */
  lemma LapsedCounterAdmitsTooMany()
    ensures var c, held := Config(0, 1), [AcquireCall("u", 0.0, "a")];
            && SameVerdict(AcquireScript(c, Serve(c, held), "u", 3601.0, "b").1, Admitted)
            && AcquireStep(c, Memory(c, held), "u", 3601.0).1 == Limited(1, TooManyRuns)
  {
    var c, op := Config(0, 1), AcquireCall("u", 0.0, "a");
    assert [op][..0] == [] && [op][0] == op;
    assert Serve(c, [op]) == Apply(c, Serve(c, []), op);
    assert Memory(c, [op]) == RateLimit.Apply(c, Memory(c, []), InMemory(op));
  }
}
