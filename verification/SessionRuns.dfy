/** One terminal session over every run of app/executor/terminal.py: how often it is closed and unregistered,
    and which sessions nobody ever ends. */
module SessionRuns {
  import opened Options
  import opened TerminalSessions

  function After(s: Session, steps: seq<Step>): Option<Session>
    decreases |steps|
  {
    if steps == [] then Some(s)
    else if !Enabled(s, steps[0]) then None
    else After(Next(s, steps[0]), steps[1..])
  }

  lemma {:induction false} RunKeepsInv(s: Session, steps: seq<Step>, s': Session)
    requires Inv(s) && After(s, steps) == Some(s')
    ensures Inv(s')
    decreases |steps|
  {
    if steps != [] {
      StepKeepsInv(s, steps[0]);
      RunKeepsInv(Next(s, steps[0]), steps[1..], s');
    }
  }

  // ---------------------------------------------------------------- every run

  /** However the closers race, the sandbox is killed at most once and on_close called at most once: exactly
      once when close() has run to its end. */
  lemma ClosesOnce(steps: seq<Step>, s: Session)
    requires After(NEW, steps) == Some(s)
    ensures s.kills <= 1 && s.calls <= 1
    ensures s.calls == 1 <==> s.close.Closed?
    ensures s.calls == 1 ==> s.kills == 1
  {
    RunKeepsInv(NEW, steps, s);
  }

  /** The manager hears of the end of a session once for its close and once for a failed start: twice exactly
      when the start of a closed session failed. */
  lemma UnregisteredTwiceExactly(steps: seq<Step>, s: Session)
    requires After(NEW, steps) == Some(s)
    ensures s.unregistered == (if s.close.Closed? then 1 else 0) + (if s.start.Failed? then 1 else 0)
    ensures s.unregistered == 2 <==> s.close.Closed? && s.start.Failed?
  {
    RunKeepsInv(NEW, steps, s);
  }

  /** That is how every session ends whose sandbox opens no console in time, whatever the kill and the delete do. */
  lemma NoConsoleUnregistersTwice(ok: bool)
    ensures var steps := [ConsoleFails, Resumes(ok)] + if ok then [Resumes(true)] else [];
            && After(NEW, steps).Some?
            && After(NEW, steps).value.close == Closed(Starter) && After(NEW, steps).value.unregistered == 2
  {
    var s1 := Next(NEW, ConsoleFails);
    var s2 := Next(s1, Resumes(ok));
    AfterCons(NEW, ConsoleFails, [Resumes(ok)] + if ok then [Resumes(true)] else []);
    AfterCons(s1, Resumes(ok), if ok then [Resumes(true)] else []);
    if ok {
      AfterCons(s2, Resumes(true), []);
      assert [ConsoleFails, Resumes(ok)] + [Resumes(true)] == [ConsoleFails] + ([Resumes(ok)] + ([Resumes(true)] + []));
    } else {
      assert [ConsoleFails, Resumes(ok)] + [] == [ConsoleFails] + ([Resumes(ok)] + []);
    }
  }

  lemma AfterCons(s: Session, step: Step, rest: seq<Step>)
    requires Enabled(s, step)
    ensures After(s, [step] + rest) == After(Next(s, step), rest)
  {
    assert ([step] + rest)[1..] == rest;
  }

  /** How often the closer still has to be resumed, at most. */
  function Left(c: Close): nat {
    match c
    case Notifying(_) => 3
    case Killing(_) => 2
    case Deleting(_) => 1
    case _ => 0
  }

  function CountResumes(steps: seq<Step>): nat {
    if steps == [] then 0 else (if steps[0].Resumes? then 1 else 0) + CountResumes(steps[1..])
  }

  /** Once a task is closing nobody takes over and nobody stops it: unless it is cancelled from outside, it
      can go on, and after at most three resumptions the session is closed, whatever the others do. */
  lemma {:induction false} ClosingGoesThrough(s: Session, steps: seq<Step>, s': Session)
    requires Inv(s) && (InClose(s) || s.close.Closed?) && After(s, steps) == Some(s')
    requires forall i :: 0 <= i < |steps| ==> steps[i] != CloserCancelled
    ensures s'.close.Closed? || (InClose(s') && Enabled(s', Resumes(true)))
    ensures s'.close.closer == s.close.closer
    ensures Left(s'.close) + CountResumes(steps) <= Left(s.close)
    decreases |steps|
  {
    if steps != [] {
      StepKeepsInv(s, steps[0]);
      ClosingGoesThrough(Next(s, steps[0]), steps[1..], s');
    }
  }

  /** A close() that a background task began is never abandoned. */
  lemma BackgroundClosesToTheEnd(steps: seq<Step>, s: Session)
    requires After(NEW, steps) == Some(s) && s.close.Abandoned?
    ensures s.close.closer !in BACKGROUND
  {
    RunKeepsInv(NEW, steps, s);
  }

  /** A closed session leaves its terminal open exactly when the console arrived after the closing had begun. */
  lemma MasterIsLeftOpenExactly(steps: seq<Step>, s: Session)
    requires After(NEW, steps) == Some(s) && s.close.Closed?
    ensures s.masterFd <==> s.late
  {
    RunKeepsInv(NEW, steps, s);
  }

  /** It happens when the manager shuts down during a start. */
  lemma ShutdownDuringStartLeavesMaster()
    ensures var end := After(NEW, [ShutdownLists, Calls(Shutdown), Opens, Resumes(false)]);
            && end.Some? && end.value.close == Closed(Shutdown) && end.value.masterFd
  {
    var s1 := Next(NEW, ShutdownLists);
    var s2 := Next(s1, Calls(Shutdown));
    var s3 := Next(s2, Opens);
    AfterCons(s3, Resumes(false), []);
    AfterCons(s2, Opens, [Resumes(false)] + []);
    AfterCons(s1, Calls(Shutdown), [Opens] + ([Resumes(false)] + []));
    AfterCons(NEW, ShutdownLists, [Calls(Shutdown)] + ([Opens] + ([Resumes(false)] + [])));
    assert [ShutdownLists, Calls(Shutdown), Opens, Resumes(false)] ==
           [ShutdownLists] + ([Calls(Shutdown)] + ([Opens] + ([Resumes(false)] + [])));
  }

  // ---------------------------------------------------------------- background tasks

  /** A closed session has background tasks only if its console came after the closing had begun. */
  predicate TasksOk(s: Session) { s.close.Closed? && !s.late ==> s.tasks == {} }

  lemma {:induction false} RunKeepsTasks(s: Session, steps: seq<Step>, s': Session)
    requires TasksOk(s) && After(s, steps) == Some(s')
    ensures TasksOk(s')
    decreases |steps|
  {
    if steps != [] {
      RunKeepsTasks(Next(s, steps[0]), steps[1..], s');
    }
  }

  /** When a session is closed its background tasks are gone, unless its console came after the closing had
      begun; right after the step that closes it they are gone even then. */
  lemma ClosedLeavesNoTask(steps: seq<Step>, s: Session)
    requires After(NEW, steps) == Some(s)
    ensures s.close.Closed? && !s.late ==> s.tasks == {}
    ensures forall step :: Enabled(s, step) && !s.close.Closed? && Next(s, step).close.Closed? ==>
              Next(s, step).tasks == {}
  {
    RunKeepsTasks(NEW, steps, s);
  }

  /** As long as an open session is not being closed, its three background tasks are there, and each of them,
      the route and a failed write can close it. */
  lemma OpenSessionIsWatched(steps: seq<Step>, s: Session)
    requires After(NEW, steps) == Some(s) && s.start.Opened? && s.close.NotClosing?
    ensures s.tasks == {Drain, WaitProc, Watchdog} && s.masterFd
    ensures forall a :: a in {Drain, WaitProc, Watchdog, Writer, Route} ==> Enabled(s, Calls(a))
  {
    RunKeepsInv(NEW, steps, s);
  }

  function CallsBy(steps: seq<Step>, actor: Actor): nat {
    if steps == [] then 0 else (if steps[0] == Calls(actor) then 1 else 0) + CallsBy(steps[1..], actor)
  }

  /** Whether a background task may still call close(). */
  function CallsLeft(s: Session, actor: Actor): nat {
    if s.start.Starting? || (actor in s.tasks && !(InClose(s) && s.close.closer == actor)) then 1 else 0
  }

  lemma {:induction false} CallsAreUsedUp(s: Session, steps: seq<Step>, s': Session, actor: Actor)
    requires Inv(s) && After(s, steps) == Some(s') && actor in BACKGROUND
    ensures CallsBy(steps, actor) + CallsLeft(s', actor) <= CallsLeft(s, actor)
    decreases |steps|
  {
    if steps != [] {
      StepKeepsInv(s, steps[0]);
      CallsAreUsedUp(Next(s, steps[0]), steps[1..], s', actor);
    }
  }

  /** Each background task calls close() at most once in its life: a call ends it, whoever closes. */
  lemma TasksCallOnce(steps: seq<Step>, s: Session, actor: Actor)
    requires After(NEW, steps) == Some(s) && actor in BACKGROUND
    ensures CallsBy(steps, actor) <= 1
  {
    CallsAreUsedUp(NEW, steps, s, actor);
  }

  /** The watchdog says farewell before the terminal is let go and the sandbox killed; nobody else waits. */
  lemma FarewellComesFirst(steps: seq<Step>, s: Session, actor: Actor)
    requires After(NEW, steps) == Some(s) && Enabled(s, Calls(actor)) && s.close.NotClosing?
    ensures var s' := Next(s, Calls(actor));
            && InClose(s') && s'.close.closer == actor
            && (if actor == Watchdog then s'.masterFd && s'.kills == 0 && Left(s'.close) == 3
                else !s'.masterFd && s'.kills == 1 && Left(s'.close) == 2)
  {
    RunKeepsInv(NEW, steps, s);
  }

  // ---------------------------------------------------------------- sessions nobody ends

  predicate Quiet(steps: seq<Step>) { forall i :: 0 <= i < |steps| ==> steps[i] != ShutdownLists }

  /** Nobody will tear this session down: its closer was cancelled half-way, or its start failed or was
      cancelled before anyone had begun to close it. Of the latter a shutdown still finds those that are
      registered, the cancelled ones. */
  predicate Orphan(s: Session, shutdown: bool) {
    || s.close.Abandoned?
    || (s.close.NotClosing? && !s.listed && (s.start.Failed? || (s.start.Dropped? && !shutdown)))
  }

  /** Nobody will unregister it. */
  predicate Stuck(s: Session, shutdown: bool) {
    && !s.start.Failed? && !s.start.Starting?
    && (s.close.Abandoned? || (s.close.NotClosing? && !s.listed && s.start.Dropped? && !shutdown))
  }

  predicate Closes(s: Session, more: seq<Step>) { After(s, more).Some? && After(s, more).value.close.Closed? }

  predicate Unregisters(s: Session, more: seq<Step>) { After(s, more).Some? && After(s, more).value.unregistered > 0 }

  lemma {:induction false} OrphanForGood(s: Session, more: seq<Step>, s': Session, shutdown: bool)
    requires Inv(s) && After(s, more) == Some(s') && (shutdown || Quiet(more))
    ensures Inv(s') && (Orphan(s, shutdown) ==> Orphan(s', shutdown)) && (Stuck(s, shutdown) ==> Stuck(s', shutdown))
    decreases |more|
  {
    if more != [] {
      StepKeepsInv(s, more[0]);
      OrphanForGood(Next(s, more[0]), more[1..], s', shutdown);
    }
  }

  /** A close() that has begun can go to its end. */
  lemma {:induction false} CloseEnds(s: Session) returns (more: seq<Step>)
    requires Inv(s) && (InClose(s) || s.close.Closed?)
    ensures Closes(s, more) && Quiet(more)
    decreases Left(s.close)
  {
    more := [];
    if InClose(s) {
      StepKeepsInv(s, Resumes(true));
      more := CloseEnds(Next(s, Resumes(true)));
      more := [Resumes(true)] + more;
    }
  }

  lemma CanClose(s: Session, shutdown: bool) returns (more: seq<Step>)
    requires Inv(s) && !Orphan(s, shutdown)
    ensures Closes(s, more) && (shutdown || Quiet(more))
    decreases if s.listed then 0 else 1
  {
    if s.close.NotClosing? && s.start.Dropped? && !s.listed {
      StepKeepsInv(s, ShutdownLists);
      more := CanClose(Next(s, ShutdownLists), shutdown);
      AfterCons(s, ShutdownLists, more);
      more := [ShutdownLists] + more;
    } else if s.close.NotClosing? {
      var step := if s.start.Starting? then ConsoleFails else if s.start.Opened? then Calls(Route) else Calls(Shutdown);
      StepKeepsInv(s, step);
      more := CloseEnds(Next(s, step));
      more := [step] + more;
    } else {
      more := CloseEnds(s);
    }
  }

  lemma CanUnregister(s: Session, shutdown: bool) returns (more: seq<Step>)
    requires Inv(s) && !Stuck(s, shutdown)
    ensures Unregisters(s, more) && (shutdown || Quiet(more))
  {
    if s.unregistered > 0 {
      more := [];
    } else if s.start.Starting? && InStart(s) {
      AfterCons(s, StartRaises, []);
      more := [StartRaises] + [];
    } else {
      more := CanClose(s, shutdown);
      OrphanForGood(s, more, After(s, more).value, true);
    }
  }

  /** In every reachable state: some continuation tears the session down exactly when it is no orphan. The two
      cases are with and without a shutdown of the server. */
  lemma TornDownExactly(steps: seq<Step>, s: Session)
    requires After(NEW, steps) == Some(s)
    ensures (exists more :: Closes(s, more)) <==> !Orphan(s, true)
    ensures (exists more :: Closes(s, more) && Quiet(more)) <==> !Orphan(s, false)
  {
    RunKeepsInv(NEW, steps, s);
    forall more | Closes(s, more)
      ensures !Orphan(s, true) && (Quiet(more) ==> !Orphan(s, false))
    {
      OrphanForGood(s, more, After(s, more).value, true);
      if Quiet(more) {
        OrphanForGood(s, more, After(s, more).value, false);
      }
    }
    if !Orphan(s, true) {
      var more := CanClose(s, true);
    }
    if !Orphan(s, false) {
      var more := CanClose(s, false);
    }
  }

  /** And some continuation unregisters it, or it has been unregistered, exactly when it is not stuck. */
  lemma UnregisteredExactly(steps: seq<Step>, s: Session)
    requires After(NEW, steps) == Some(s)
    ensures (exists more :: Unregisters(s, more)) <==> !Stuck(s, true)
    ensures (exists more :: Unregisters(s, more) && Quiet(more)) <==> !Stuck(s, false)
  {
    RunKeepsInv(NEW, steps, s);
    forall more | Unregisters(s, more)
      ensures !Stuck(s, true) && (Quiet(more) ==> !Stuck(s, false))
    {
      OrphanForGood(s, more, After(s, more).value, true);
      if Quiet(more) {
        OrphanForGood(s, more, After(s, more).value, false);
      }
    }
    if !Stuck(s, true) {
      var more := CanUnregister(s, true);
    }
    if !Stuck(s, false) {
      var more := CanUnregister(s, false);
    }
  }

  /** A session that is out of the registry without its sandbox ever having been killed: exactly one whose
      start raised before anyone had begun to close it. */
  lemma ForgottenExactly(steps: seq<Step>, s: Session)
    requires After(NEW, steps) == Some(s)
    ensures s.unregistered > 0 && s.kills == 0 <==> s.start.Failed? && s.close.NotClosing?
  {
    RunKeepsInv(NEW, steps, s);
  }

  /** The start that raises without closing, and the start that is cancelled: no kill, and the place in the
      registry given up in the one case and kept in the other. */
  lemma StartsThatOrphan()
    ensures var raised, dropped := After(NEW, [StartRaises]), After(NEW, [StartCancelled]);
            && raised.Some? && Orphan(raised.value, true) && raised.value.kills == 0 && raised.value.unregistered == 1
            && dropped.Some? && Orphan(dropped.value, false) && Stuck(dropped.value, false)
            && dropped.value.kills == 0 && dropped.value.unregistered == 0
  {
    assert [StartRaises] == [StartRaises] + [] && [StartCancelled] == [StartCancelled] + [];
    AfterCons(NEW, StartRaises, []);
    AfterCons(NEW, StartCancelled, []);
  }
}
