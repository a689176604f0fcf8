/** The periodic sweep of run directories, app/executor/runner.py and app/main.py: it goes by the age of a
    directory's modification time, and should never touch a directory in use. */
module Janitor {
  import opened Launch
  import opened Options
  import opened Watchdogs

  /** mtime: None if stat() fails. The phases whose state directory exists. */
  datatype Dir = Dir(mtime: Option<real>, compileState: bool, runState: bool)

  /** The test of sweep_orphans. */
  predicate IsStale(d: Dir, now: real, maxAge: Option<real>) {
    maxAge.Some? ==> d.mtime.Some? && now - d.mtime.value >= maxAge.value
  }

  function Containers(name: string, d: Dir): set<string> {
    (if d.compileState then {name + "-c"} else {}) + (if d.runState then {name + "-r"} else {})
  }

  /** Half-way through a sweep: what is left and what is deleted, with the directories still to be looked at. */
  ghost predicate HalfSwept(dirs: map<string, Dir>, left: map<string, Dir>, deleted: map<string, set<string>>,
                            todo: set<string>, now: real, maxAge: Option<real>) {
    && (forall d :: d in todo ==> d in left)
    && (forall d :: d in left ==> d in dirs && left[d] == dirs[d] && (d in todo || !IsStale(dirs[d], now, maxAge)))
    && (forall d :: d in dirs && d !in left ==> IsStale(dirs[d], now, maxAge))
    && (forall d :: d in deleted <==> d in dirs && d !in left)
    && (forall d :: d in deleted ==> deleted[d] == Containers(d, dirs[d]))
  }

  lemma SweepNext(dirs: map<string, Dir>, left: map<string, Dir>, deleted: map<string, set<string>>, todo: set<string>,
                  now: real, maxAge: Option<real>, d: string)
    requires HalfSwept(dirs, left, deleted, todo, now, maxAge) && d in todo
    ensures d in dirs && d !in deleted
    ensures !IsStale(dirs[d], now, maxAge) ==> HalfSwept(dirs, left, deleted, todo - {d}, now, maxAge)
    ensures IsStale(dirs[d], now, maxAge) ==>
              HalfSwept(dirs, left - {d}, deleted[d := Containers(d, dirs[d])], todo - {d}, now, maxAge)
  {
  }

  /** With nothing left to look at. */
  ghost predicate Swept(dirs: map<string, Dir>, left: map<string, Dir>, deleted: map<string, set<string>>, now: real,
                        maxAge: Option<real>) {
    && (maxAge.None? ==> left == map[])
    && (maxAge.Some? ==> forall d :: d in left <==>
          d in dirs && (dirs[d].mtime.None? || now - dirs[d].mtime.value < maxAge.value))
    && (forall d :: d in left ==> left[d] == dirs[d])
    && (forall d :: d in deleted <==> d in dirs && d !in left)
    && (forall d, x :: d in deleted ==>
          (x in deleted[d] <==> (dirs[d].compileState && x == d + "-c") || (dirs[d].runState && x == d + "-r")))
  }

  lemma SweepEnds(dirs: map<string, Dir>, left: map<string, Dir>, deleted: map<string, set<string>>, now: real,
                  maxAge: Option<real>)
    requires HalfSwept(dirs, left, deleted, {}, now, maxAge)
    ensures Swept(dirs, left, deleted, now, maxAge)
  {
  }

  /** The directories left, how many were removed, and for each of those the containers force-deleted. */
  method Sweep(dirs: map<string, Dir>, now: real, maxAge: Option<real>)
    returns (left: map<string, Dir>, n: nat, deleted: map<string, set<string>>)
    ensures Swept(dirs, left, deleted, now, maxAge) && n == |deleted|
  {
    left, n, deleted := dirs, 0, map[];
    var todo := dirs.Keys;
    while todo != {}
      invariant HalfSwept(dirs, left, deleted, todo, now, maxAge) && n == |deleted|
      decreases |todo|
    {
      var d :| d in todo;
      SweepNext(dirs, left, deleted, todo, now, maxAge, d);
      todo := todo - {d};
      if maxAge.Some? && (dirs[d].mtime.None? || now - dirs[d].mtime.value < maxAge.value) {
        continue;
      }
      deleted := deleted[d := Containers(d, dirs[d])];
      left := left - {d};
      n := n + 1;
    }
    SweepEnds(dirs, left, deleted, now, maxAge);
  }

  /** The containers of later attempts are not among those a sweep deletes, whatever the directory. */
  lemma SweepMissesRetries(name: string, runId: string, d: Dir, phase: string, k: nat)
    requires |name| == |runId| && phase in {"-c", "-r"} && k > 0
    ensures AttemptName(runId + phase, k) !in Containers(name, d)
  {
    assert |AttemptName(runId + phase, k)| > |name| + 2;
  }

  // ---------------------------------------------------------------- one-shot runs

  /** How long things can take: writing the sources, one attempt with its kill and its delete, and the
      longest pause before a retry. */
  datatype Times = Times(staging: real, attempt: real, pause: real)

  predicate Sensible(t: Times) { t.staging >= 0.0 && t.attempt >= 0.0 && t.pause >= 0.0 }

  function LongestGap(t: Times): real { if t.staging > t.attempt + t.pause then t.staging else t.attempt + t.pause }

  /** A run: created at created, attempt i from starts[i] to stops[i], its directory removed at the last stop.
      Making the phase directory of an attempt refreshes the run directory's mtime. */
  datatype Timeline = Timeline(created: real, starts: seq<real>, stops: seq<real>)

  ghost predicate Possible(r: Timeline, t: Times) {
    && |r.starts| == |r.stops| > 0
    && r.created <= r.starts[0] <= r.created + t.staging
    && (forall i :: 0 <= i < |r.starts| ==> r.starts[i] <= r.stops[i] <= r.starts[i] + t.attempt)
    && (forall i :: 0 < i < |r.starts| ==> r.stops[i - 1] <= r.starts[i] <= r.stops[i - 1] + t.pause)
  }

  function Removed(r: Timeline): real
    requires |r.stops| > 0
  {
    r.stops[|r.stops| - 1]
  }

  /** The directory's mtime at time now, of the first n starts: the last of them that has come, or the
      creation. */
  function MtimeOf(created: real, starts: seq<real>, n: nat, now: real): real
    requires n <= |starts|
  {
    if n == 0 then created else if starts[n - 1] <= now then starts[n - 1] else MtimeOf(created, starts, n - 1, now)
  }

  function Mtime(r: Timeline, now: real): real { MtimeOf(r.created, r.starts, |r.starts|, now) }

  lemma {:induction false} AgeIsBounded(r: Timeline, t: Times, n: nat, now: real)
    requires Sensible(t) && Possible(r, t) && n <= |r.starts| && r.created <= now
    requires now < if n < |r.starts| then r.starts[n] else Removed(r)
    ensures 0.0 <= now - MtimeOf(r.created, r.starts, n, now) < LongestGap(t)
  {
    if n > 0 && r.starts[n - 1] > now {
      AgeIsBounded(r, t, n - 1, now);
    }
  }

  /** No sweep finds a live one-shot run stale, whenever it comes and however the run goes, exactly when
      the age limit is at least the longest time between two refreshes. */
  lemma RunsAreSafeExactly(t: Times, maxAge: real)
    requires Sensible(t)
    ensures (forall r: Timeline, now: real :: Possible(r, t) && r.created <= now < Removed(r) ==>
               now - Mtime(r, now) < maxAge) <==> maxAge >= LongestGap(t) || LongestGap(t) <= 0.0
  {
    if maxAge >= LongestGap(t) || LongestGap(t) <= 0.0 {
      forall r: Timeline, now: real | Possible(r, t) && r.created <= now < Removed(r)
        ensures now - Mtime(r, now) < maxAge
      {
        AgeIsBounded(r, t, |r.starts|, now);
      }
    } else {
      var r, now := SweptRun(t, maxAge);
    }
  }

  lemma LastButOne(created: real, starts: seq<real>, now: real)
    requires |starts| >= 2 && starts[|starts| - 2] <= now < starts[|starts| - 1]
    ensures MtimeOf(created, starts, |starts|, now) == starts[|starts| - 2]
  {
    assert MtimeOf(created, starts, |starts| - 1, now) == starts[|starts| - 2];
  }

  /** A run in which the longest gap is taken, and a sweep in it. */
  lemma SweptRun(t: Times, maxAge: real) returns (r: Timeline, now: real)
    requires Sensible(t) && maxAge < LongestGap(t) && 0.0 < LongestGap(t)
    ensures Possible(r, t) && r.created <= now < Removed(r) && now - Mtime(r, now) >= maxAge
  {
    now := if maxAge < 0.0 then 0.0 else maxAge;
    if t.staging > t.attempt + t.pause {
      r := Timeline(0.0, [t.staging], [t.staging]);
      OneStart(t.staging, now);
    } else {
      var next := t.attempt + t.pause;
      r := Timeline(0.0, [0.0, next], [t.attempt, next]);
      LastButOne(0.0, [0.0, next], now);
      assert r.starts[1] == next && r.stops[0] == t.attempt && r.starts[0] == 0.0 && r.stops[1] == next;
    }
  }

  lemma OneStart(start: real, now: real)
    requires now < start
    ensures MtimeOf(0.0, [start], 1, now) == 0.0
  {
    assert MtimeOf(0.0, [start], 0, now) == 0.0;
  }

  // ---------------------------------------------------------------- the retry loop and the defaults

  /** What a run may take: preparing the sources, the wall timeout of a phase, a kill and a delete, the backoff
      and how many retries, and the way from one phase to the next. */
  datatype Budget = Budget(staging: real, timeout: real, kill: real, delete: real, backoff: real, retries: nat,
      handover: real)

  /** backoff times k */
  function Pause(backoff: real, k: nat): real { if k == 0 then 0.0 else Pause(backoff, k - 1) + backoff }

  function TimesOf(b: Budget): Times {
    var backoff := Pause(b.backoff, b.retries);
    Times(b.staging, FullAttempt(b), if backoff > b.handover then backoff else b.handover)
  }

  function FullAttempt(b: Budget): real { b.timeout + b.kill + b.delete }

  predicate WithinAttempt(start: real, stop: real, b: Budget) { start <= stop <= start + FullAttempt(b) }

  /** A retry comes after its backoff, the first attempt of a phase after the handover. */
  predicate Succeeds(stop: real, start: real, attempt: nat, b: Budget) {
    attempt <= b.retries &&
    if attempt > 0 then start == stop + Pause(b.backoff, attempt) else stop <= start <= stop + b.handover
  }

  /** attempts[i]: which attempt of its phase start i is. */
  ghost predicate Loops(r: Timeline, attempts: seq<nat>, b: Budget) {
    && |attempts| == |r.starts| == |r.stops| > 0
    && r.created <= r.starts[0] <= r.created + b.staging
    && (forall i :: 0 <= i < |r.starts| ==> WithinAttempt(r.starts[i], r.stops[i], b))
    && (forall i :: 0 < i < |r.starts| ==> Succeeds(r.stops[i - 1], r.starts[i], attempts[i], b))
  }

  lemma {:induction false} BackoffGrows(backoff: real, k: nat, n: nat)
    requires backoff >= 0.0 && k <= n
    ensures 0.0 <= Pause(backoff, k) <= Pause(backoff, n)
    decreases n
  {
    if k < n {
      BackoffGrows(backoff, k, n - 1);
    } else if k > 0 {
      BackoffGrows(backoff, k - 1, n - 1);
    }
  }

  lemma LoopsArePossible(r: Timeline, attempts: seq<nat>, b: Budget)
    requires Loops(r, attempts, b) && b.backoff >= 0.0
    ensures Possible(r, TimesOf(b))
  {
    assert forall i :: 0 <= i < |r.starts| ==> WithinAttempt(r.starts[i], r.stops[i], b);
    forall i | 0 < i < |r.starts|
      ensures r.stops[i - 1] <= r.starts[i] <= r.stops[i - 1] + TimesOf(b).pause
    {
      assert Succeeds(r.stops[i - 1], r.starts[i], attempts[i], b);
      BackoffGrows(b.backoff, attempts[i], b.retries);
    }
  }

  predicate SensibleBudget(b: Budget) {
    && b.staging >= 0.0 && b.timeout >= 0.0 && b.kill >= 0.0 && b.delete >= 0.0
    && b.backoff >= 0.0 && b.handover >= 0.0
  }

  /** A phase in which every attempt takes its full time and all but the last fail to launch. */
  lemma {:induction false} FullPhase(b: Budget, n: nat, full: real) returns (r: Timeline, attempts: seq<nat>)
    requires SensibleBudget(b) && n <= b.retries && full == FullAttempt(b)
    ensures Loops(r, attempts, b) && |r.starts| == n + 1
    ensures r.created == r.starts[0] == 0.0 && r.starts[n] >= 0.0 && r.stops[n] == r.starts[n] + full
    ensures n > 0 ==> r.starts[n - 1] >= 0.0 && r.starts[n] == r.starts[n - 1] + full + Pause(b.backoff, n)
  {
    if n == 0 {
      r, attempts := Timeline(0.0, [0.0], [full]), [0];
    } else {
      r, attempts := FullPhase(b, n - 1, full);
      BackoffGrows(b.backoff, n, n);
      var start := Removed(r) + Pause(b.backoff, n);
      r, attempts := Timeline(r.created, r.starts + [start], r.stops + [start + full]), attempts + [n];
    }
  }

  /** Below the longest gap there is a run of the retry loop that is swept. */
  lemma SweptLoop(b: Budget, maxAge: real) returns (r: Timeline, attempts: seq<nat>, now: real)
    requires SensibleBudget(b) && maxAge < LongestGap(TimesOf(b)) && 0.0 < LongestGap(TimesOf(b))
    ensures Loops(r, attempts, b) && r.created <= now < Removed(r) && now - Mtime(r, now) >= maxAge
  {
    var age := if maxAge < 0.0 then 0.0 else maxAge;
    var full, n := FullAttempt(b), b.retries;
    var t := TimesOf(b);
    BackoffGrows(b.backoff, 0, n);
    if t.staging > t.attempt + t.pause {
      r, attempts, now := Timeline(0.0, [t.staging], [t.staging]), [0], age;
      OneStart(t.staging, now);
    } else if t.pause == b.handover {
      var next := full + b.handover;
      r, attempts, now := Timeline(0.0, [0.0, next], [full, next]), [0, 0], age;
      LastButOne(0.0, [0.0, next], now);
    } else {
      r, attempts := FullPhase(b, n, full);
      now := r.starts[n - 1] + age;
      LastButOne(r.created, r.starts, now);
    }
  }

  /** The same bound for the retry loop itself, with its growing backoff: no sweep finds a live run of it stale
      exactly when the age limit is at least the longest gap. */
  lemma LoopsAreSafeExactly(b: Budget, maxAge: real)
    requires SensibleBudget(b)
    ensures (forall r: Timeline, attempts: seq<nat>, now: real ::
               Loops(r, attempts, b) && r.created <= now < Removed(r) ==>
               now - Mtime(r, now) < maxAge) <==> maxAge >= LongestGap(TimesOf(b)) || LongestGap(TimesOf(b)) <= 0.0
  {
    BackoffGrows(b.backoff, 0, b.retries);
    if maxAge >= LongestGap(TimesOf(b)) || LongestGap(TimesOf(b)) <= 0.0 {
      forall r: Timeline, attempts: seq<nat>, now: real | Loops(r, attempts, b) && r.created <= now < Removed(r)
        ensures now - Mtime(r, now) < maxAge
      {
        LoopsArePossible(r, attempts, b);
        AgeIsBounded(r, TimesOf(b), |r.starts|, now);
      }
    } else {
      var r, attempts, now := SweptLoop(b, maxAge);
    }
  }

  /** With the defaults, the longest request timeout and the ten seconds that kill and delete have each, no
      sweep finds a live one-shot run stale: the longest gap is 50.5 seconds, however many retries it takes. */
  lemma DefaultRunsAreNeverSwept(r: Timeline, attempts: seq<nat>, b: Budget, d: Dir, now: real)
    requires Loops(r, attempts, b) && 0.0 <= b.staging < 300.0 && 0.0 <= b.handover <= 0.5
    requires 0.0 <= b.timeout <= 30.0 && 0.0 <= b.kill <= 10.0 && 0.0 <= b.delete <= 10.0
    requires b.backoff == 0.25 && b.retries == 2
    requires r.created <= now < Removed(r) && d.mtime == Some(Mtime(r, now))
    ensures 0.0 <= now - Mtime(r, now) < 300.0 && !IsStale(d, now, Some(300.0))
    ensures TimesOf(b).attempt + TimesOf(b).pause <= 50.5
  {
    assert Pause(0.25, 2) == 0.5 by { assert Pause(0.25, 1) == 0.25; }
    LoopsArePossible(r, attempts, b);
    AgeIsBounded(r, TimesOf(b), |r.starts|, now);
  }

  // ---------------------------------------------------------------- terminal sessions

  /** How long things can take in a terminal session: preparing its directory, whose last entry is the console
      socket; from there to the console; the maximum lifetime; and from the start of its close to the removal
      of the directory. */
  datatype TerminalTimes = TerminalTimes(staging: real, startup: real, lifetime: real, teardown: real)

  datatype TerminalLife = TerminalLife(created: real, filled: real, begin: real, closing: real, removed: real)

  predicate Lived(v: TerminalLife, t: TerminalTimes) {
    && v.created <= v.filled <= v.created + t.staging
    && v.filled <= v.begin <= v.filled + t.startup
    && v.begin <= v.closing && InTime(v.begin, v.closing, t.lifetime)
    && v.closing <= v.removed <= v.closing + t.teardown
  }

  predicate InUse(v: TerminalLife, now: real) { v.created <= now < v.removed }

  function TerminalMtime(v: TerminalLife, now: real): real { MtimeOf(v.created, [v.filled], 1, now) }

  /** The longest time without a refresh. */
  function LongestStay(t: TerminalTimes): real {
    var stay := t.startup + t.lifetime + POLL_S + t.teardown;
    if t.staging > stay then t.staging else stay
  }

  predicate SensibleTerminal(t: TerminalTimes) {
    t.staging >= 0.0 && t.startup >= 0.0 && t.lifetime > 0.0 && t.teardown >= 0.0
  }

  lemma TerminalMtimeIs(v: TerminalLife, now: real)
    ensures TerminalMtime(v, now) == if v.filled <= now then v.filled else v.created
  {
    assert MtimeOf(v.created, [v.filled], 0, now) == v.created;
  }

  /** No sweep finds a live terminal session stale, however its life goes and whenever the watchdog ends it,
      exactly when the age limit is at least the start-up, the lifetime, one poll and the tear-down together
      (or the staging, if that takes longer). */
  lemma TerminalsAreSafeExactly(t: TerminalTimes, maxAge: real)
    requires SensibleTerminal(t)
    ensures (forall v: TerminalLife, now: real :: Lived(v, t) && InUse(v, now) ==>
            now - TerminalMtime(v, now) < maxAge) <==>
            maxAge >= t.staging && maxAge >= t.startup + t.lifetime + 2.0 + t.teardown
  {
    if maxAge >= LongestStay(t) {
      forall v: TerminalLife, now: real | Lived(v, t) && InUse(v, now)
        ensures now - TerminalMtime(v, now) < maxAge
      {
        TerminalMtimeIs(v, now);
      }
    } else {
      var v, now := SweptTerminal(t, maxAge);
    }
  }

  /** Below that bound there is a session that is swept. */
  lemma SweptTerminal(t: TerminalTimes, maxAge: real) returns (v: TerminalLife, now: real)
    requires SensibleTerminal(t) && maxAge < LongestStay(t)
    ensures Lived(v, t) && InUse(v, now) && now - TerminalMtime(v, now) >= maxAge
  {
    now := if maxAge < 0.0 then 0.0 else maxAge;
    var stay := t.startup + t.lifetime + POLL_S + t.teardown;
    if now < stay {
      var early := if stay - now < 2.0 then (stay - now) / 2.0 else 1.0;
      var closing := t.startup + t.lifetime + POLL_S - early;
      v := TerminalLife(0.0, 0.0, t.startup, closing, closing + t.teardown);
    } else {
      v := TerminalLife(0.0, t.staging, t.staging, t.staging, t.staging);
    }
    TerminalMtimeIs(v, now);
  }

  /** With the defaults every session that lives its full time gets swept, wherever the sweeps fall: the
      first one at or after the age limit comes long before its end. */
  lemma DefaultSessionsAreSwept(v: TerminalLife, previous: real, next: real)
    requires v.created <= v.filled && v.filled + 1200.0 <= v.removed
    requires previous < v.filled + 300.0 <= next <= previous + 60.0
    ensures InUse(v, next)
    ensures IsStale(Dir(Some(TerminalMtime(v, next)), false, false), next, Some(300.0))
  {
    TerminalMtimeIs(v, next);
  }
}
