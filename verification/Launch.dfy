/** Launching a run, app/executor/runner.py: bounded retry of failed launches, and the compile and run
    phases. A container is a foreign call: the result of attempt k, and whether user code ran in it, are
    given by a function that may be any function. An attempt that raises has the result Orchestration(exc),
    which is what execute() makes of it: it is never retried, and no later phase is entered. */
module Launch {
  import opened Options
  import opened Text

  datatype Result = Result(stdout: string, stderr: string, exitCode: Option<int>, timedOut: bool, error: string)
  datatype Attempt = Attempt(result: Result, ranUserCode: bool)

  /** The result of execute() when anything in it raises. */
  function Orchestration(exc: string): Result { Result("", "", None, false, exc) }

  const TRANSIENT_MARKERS: seq<string> := [
    "cannot read client sync file", "waiting for sandbox to start", "cannot create sandbox",
    "creating container", "error reserving", "failed to start transient scope",
    "connection timed out", "transport endpoint is not connected", "resource temporarily unavailable"]

  /** _is_transient_launch_failure */
  predicate IsTransient(r: Result) {
    && !r.timedOut && r.error == "" && r.stdout == "" && r.exitCode == Some(128)
    && ContainsAny(Lower(r.stderr), TRANSIENT_MARKERS)
  }

  /** The container id, or the phase directory, of attempt k. */
  function AttemptName(base: string, k: nat): string { if k == 0 then base else base + "-r" + Print(k) }

  function Names(base: string, n: nat): seq<string> { seq(n, (k: nat) => AttemptName(base, k)) }

  /** The first attempt has the plain name, attempt k the suffix -r and the number k. */
  lemma NamesAre(base: string, n: nat, k: nat)
    requires k < n
    ensures |Names(base, n)| == n && Names(base, n)[k] == if k == 0 then base else base + ("-r" + Print(k))
  {
    assert base + "-r" + Print(k) == base + ("-r" + Print(k));
  }

  lemma NotRun(n: nat)
    ensures "run" !in Names("compile", n)
  {
    forall k | 0 <= k < n ensures Names("compile", n)[k] != "run" {
      NamesAre("compile", n, k);
    }
  }

  function Limit(retries: int): nat { if retries > 0 then 1 + retries else 1 }

  /** How many attempts are made from attempt k on, for the loop to settle. */
  function MadeFrom(launch: nat -> Attempt, retries: int, k: nat): (n: nat)
    requires k < Limit(retries)
    ensures k < n
    decreases Limit(retries) - k
  {
    if k + 1 == Limit(retries) || !IsTransient(launch(k).result) then k + 1 else MadeFrom(launch, retries, k + 1)
  }

  function Made(launch: nat -> Attempt, retries: int): nat { MadeFrom(launch, retries, 0) }

  /** _run_with_retry: one attempt, and one more after each launch failure as long as retries remain. */
  method RunWithRetry(launch: nat -> Attempt, retries: int, cid: string, dir: string)
    returns (res: Result, cids: seq<string>, dirs: seq<string>)
    ensures |cids| == Made(launch, retries) && cids == Names(cid, |cids|) && dirs == Names(dir, |cids|)
    ensures 1 <= |cids| <= (if retries > 0 then 1 + retries else 1)
    ensures res == launch(|cids| - 1).result
    ensures forall k :: 0 <= k < |cids| - 1 ==> IsTransient(launch(k).result)
    ensures IsTransient(res) ==> |cids| == Limit(retries)
  {
    res := launch(0).result;
    cids, dirs := [cid], [dir];
    var attempt := 1;
    while attempt < retries + 1
      invariant 1 <= attempt <= Limit(retries) && |cids| == attempt
      invariant cids == Names(cid, attempt) && dirs == Names(dir, attempt)
      invariant res == launch(attempt - 1).result
      invariant forall k :: 0 <= k < attempt - 1 ==> IsTransient(launch(k).result)
      invariant MadeFrom(launch, retries, attempt - 1) == Made(launch, retries)
      decreases retries + 1 - attempt
    {
      if !IsTransient(res) {
        return;
      }
      res := launch(attempt).result;
      cids := cids + [cid + "-r" + Print(attempt)];
      dirs := dirs + [dir + "-r" + Print(attempt)];
      attempt := attempt + 1;
    }
  }

  datatype Stage = Compile | Run

  predicate Built(compiled: bool, compile: nat -> Attempt, retries: int) {
    compiled ==> var r := compile(LastOf(compile, retries)).result; !r.timedOut && r.exitCode == Some(0)
  }

  /** The index of the attempt whose result is returned. */
  function LastOf(launch: nat -> Attempt, retries: int): nat { Made(launch, retries) - 1 }

  /** execute(): the run phase is entered only after a compile that exited with 0 in time; stagingError is
      what preparing the sources raises, if it raises. The stage is compile for a compile that ended badly,
      and stays run for one that raised. */
  method Execute(stagingError: string, compiled: bool, compile: nat -> Attempt, run: nat -> Attempt, retries: int,
      runId: string)
    returns (stage: Stage, res: Result, cids: seq<string>, dirs: seq<string>)
    ensures stagingError != "" ==> stage == Run && res == Orchestration(stagingError) && cids == [] && dirs == []
    ensures stagingError == "" ==>
            var built := Built(compiled, compile, retries);
            var c := if compiled then Made(compile, retries) else 0;
            var r := if built then Made(run, retries) else 0;
            && res == (if built then run(LastOf(run, retries)) else compile(LastOf(compile, retries))).result
            && stage == (if built || res.error != "" then Run else Compile)
            && cids == Names(runId + "-c", c) + Names(runId + "-r", r)
            && dirs == Names("compile", c) + Names("run", r)
    ensures "run" in dirs <==>
              stagingError == "" &&
              (compiled ==> var r := compile(LastOf(compile, retries)).result; r.exitCode == Some(0) && !r.timedOut)
  {
    cids, dirs := [], [];
    if stagingError != "" {
      return Run, Orchestration(stagingError), cids, dirs;
    }
    if compiled {
      res, cids, dirs := RunWithRetry(compile, retries, runId + "-c", "compile");
      if res.timedOut || res.exitCode != Some(0) {
        assert Names(runId + "-r", 0) == [] && Names("run", 0) == [];
        NotRun(|dirs|);
        return if res.error != "" then Run else Compile, res, cids, dirs;
      }
    }
    var runCids, runDirs;
    res, runCids, runDirs := RunWithRetry(run, retries, runId + "-r", "run");
    NamesAre("run", |runDirs|, 0);
    return Run, res, cids + runCids, dirs + runDirs;
  }

  // ---------------------------------------------------------------- names

  lemma AttemptsDiffer(base: string, i: nat, k: nat)
    requires AttemptName(base, i) == AttemptName(base, k)
    ensures i == k
  {
    if i != 0 && k != 0 {
      assert (base + "-r" + Print(i))[|base| + 2..] == Print(i);
      assert (base + "-r" + Print(k))[|base| + 2..] == Print(k);
      PrintIsInjective(i, k);
    }
  }

  predicate Distinct(names: seq<string>) { forall i, k :: 0 <= i < k < |names| ==> names[i] != names[k] }

  /** Bases that differ at some place lead to names that differ, whatever the attempts. */
  lemma BasesDiffer(a: string, b: string, p: nat, i: nat, k: nat)
    requires p < |a| && p < |b| && a[p] != b[p]
    ensures AttemptName(a, i) != AttemptName(b, k)
  {
    assert AttemptName(a, i)[p] == a[p] && AttemptName(b, k)[p] == b[p];
  }

  lemma TwoPhasesDiffer(a: string, b: string, p: nat, c: nat, r: nat)
    requires p < |a| && p < |b| && a[p] != b[p]
    ensures Distinct(Names(a, c) + Names(b, r))
  {
    var all := Names(a, c) + Names(b, r);
    forall i, k | 0 <= i < k < |all| ensures all[i] != all[k] {
      if k < c {
        if all[i] == all[k] { AttemptsDiffer(a, i, k); }
      } else if i >= c {
        if all[i] == all[k] { AttemptsDiffer(b, i - c, k - c); }
      } else {
        BasesDiffer(a, b, p, i, k - c);
      }
    }
  }

  /** The container ids of one run, over both phases and all attempts, are distinct, and so are the phase
      directories; two runs whose ids have one length share no container id. */
  lemma NamesAreDistinct(runId: string, otherId: string, c: nat, r: nat, c': nat, r': nat)
    requires |runId| == |otherId| && runId != otherId
    ensures Distinct(Names(runId + "-c", c) + Names(runId + "-r", r))
    ensures Distinct(Names("compile", c) + Names("run", r))
    ensures forall x :: x in Names(runId + "-c", c) + Names(runId + "-r", r) ==>
            x !in Names(otherId + "-c", c') + Names(otherId + "-r", r')
  {
    TwoPhasesDiffer(runId + "-c", runId + "-r", |runId| + 1, c, r);
    TwoPhasesDiffer("compile", "run", 0, c, r);
    forall x, y | x in Names(runId + "-c", c) + Names(runId + "-r", r) &&
        y in Names(otherId + "-c", c') + Names(otherId + "-r", r')
      ensures x != y
    {
      PrefixOfName(runId, c, r, x);
      PrefixOfName(otherId, c', r', y);
    }
  }

  lemma PrefixOfName(runId: string, c: nat, r: nat, x: string)
    requires x in Names(runId + "-c", c) + Names(runId + "-r", r)
    ensures |x| >= |runId| && x[..|runId|] == runId
  {
    var i :| 0 <= i < c + r && (Names(runId + "-c", c) + Names(runId + "-r", r))[i] == x;
    var base := if i < c then runId + "-c" else runId + "-r";
    assert x[..|base|][..|runId|] == x[..|runId|];
  }

  // ---------------------------------------------------------------- when there is another attempt

  /** After attempt k there is another one exactly when retries remain and attempt k exited with 128, in time,
      without an orchestration error and with nothing on stdout, and one of the listed texts stands somewhere in
      its lower-cased stderr. */
  lemma AnotherAttemptExactly(launch: nat -> Attempt, retries: int, k: nat)
    requires k < Made(launch, retries)
    ensures var r := launch(k).result;
            k + 1 < Made(launch, retries) <==>
              && k + 1 <= retries
              && r.exitCode == Some(128) && !r.timedOut && r.error == "" && r.stdout == ""
              && AnyStands(Lower(r.stderr), TRANSIENT_MARKERS)
  {
    MadeContinues(launch, retries, 0, k);
    SignatureMeans(launch(k).result);
  }

  /** The test for a launch failure, told by its parts. */
  lemma SignatureMeans(r: Result)
    ensures IsTransient(r) <==>
              && r.exitCode == Some(128) && !r.timedOut && r.error == "" && r.stdout == ""
              && AnyStands(Lower(r.stderr), TRANSIENT_MARKERS)
    ensures TRANSIENT_MARKERS == [
        "cannot read client sync file", "waiting for sandbox to start", "cannot create sandbox",
        "creating container", "error reserving", "failed to start transient scope",
        "connection timed out", "transport endpoint is not connected", "resource temporarily unavailable"]
  {
    ContainsAnyExactly(Lower(r.stderr), TRANSIENT_MARKERS);
  }

  lemma {:induction false} MadeContinues(launch: nat -> Attempt, retries: int, from: nat, k: nat)
    requires from < Limit(retries) && from <= k < MadeFrom(launch, retries, from)
    ensures k + 1 < MadeFrom(launch, retries, from) <==> k + 1 <= retries && IsTransient(launch(k).result)
    decreases k - from
  {
    MadeMeans(launch, retries, from);
    if from < k {
      MadeContinues(launch, retries, from + 1, k);
    }
  }

  // ---------------------------------------------------------------- user code

  /** In how many of the first n attempts user code ran. */
  function UserRuns(launch: nat -> Attempt, n: nat): nat {
    if n == 0 then 0 else UserRuns(launch, n - 1) + if launch(n - 1).ranUserCode then 1 else 0
  }

  lemma {:induction false} MadeMeans(launch: nat -> Attempt, retries: int, k: nat)
    requires k < Limit(retries)
    ensures var n := MadeFrom(launch, retries, k);
            && k < n <= Limit(retries)
            && (forall i :: k <= i < n - 1 ==> IsTransient(launch(i).result))
            && (n < Limit(retries) ==> !IsTransient(launch(n - 1).result))
    decreases Limit(retries) - k
  {
    if k + 1 != Limit(retries) && IsTransient(launch(k).result) {
      MadeMeans(launch, retries, k + 1);
    }
  }

  lemma {:induction false} QuietAttempts(launch: nat -> Attempt, n: nat)
    requires forall i :: 0 <= i < n ==> !launch(i).ranUserCode
    ensures UserRuns(launch, n) == 0
  {
    if n > 0 {
      QuietAttempts(launch, n - 1);
    }
  }

  /** User code runs more than once only if some attempt that did run it looked like a launch failure. */
  lemma RunsAtMostOnceUnlessForged(launch: nat -> Attempt, retries: int)
    requires forall i :: 0 <= i < Limit(retries) && IsTransient(launch(i).result) ==> !launch(i).ranUserCode
    ensures UserRuns(launch, Made(launch, retries)) <= 1
  {
    MadeMeans(launch, retries, 0);
    QuietAttempts(launch, Made(launch, retries) - 1);
  }

  lemma {:induction false} RepeatedRuns(launch: nat -> Attempt, n: nat)
    requires forall i :: 0 <= i < n ==> launch(i).ranUserCode
    ensures UserRuns(launch, n) == n
  {
    if n > 0 {
      RepeatedRuns(launch, n - 1);
    }
  }

  /** A program that ends the same way every time it runs is run as often as attempts are allowed if it exits
      with 128, in time, without an orchestration error and with nothing on stdout, and one of the listed texts
      stands somewhere in its lower-cased stderr; otherwise it is run once. */
  lemma RerunsExactlyOnSignature(ending: Result, retries: int)
    ensures var launch := (k: nat) => Attempt(ending, true);
            UserRuns(launch, Made(launch, retries)) ==
              if ending.exitCode == Some(128) && !ending.timedOut && ending.error == "" && ending.stdout == ""
                 && AnyStands(Lower(ending.stderr), TRANSIENT_MARKERS)
              then (if retries > 0 then 1 + retries else 1)
              else 1
  {
    SignatureMeans(ending);
    var launch := (k: nat) => Attempt(ending, true);
    MadeMeans(launch, retries, 0);
    RepeatedRuns(launch, Made(launch, retries));
  }

  /** A program can end that way: nothing on stdout, a marker alone on stderr, exit code 128. */
  lemma SignatureCanBeForged(marker: string)
    requires marker in TRANSIENT_MARKERS && forall i :: 0 <= i < |marker| ==> !('A' <= marker[i] <= 'Z')
    ensures IsTransient(Result("", marker, Some(128), false, ""))
  {
    LowerKeeps(marker);
  }

  lemma {:induction false} LowerKeeps(s: string)
    requires forall i :: 0 <= i < |s| ==> !('A' <= s[i] <= 'Z')
    ensures Lower(s) == s
  {
    if s != [] {
      LowerKeeps(s[1..]);
    }
  }
}
