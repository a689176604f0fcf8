/** The life of one terminal session, TerminalSession in app/executor/terminal.py: many tasks may close it at
    any moment, even while it is being started.

    A coroutine runs undisturbed from one await to the next, so each such stretch is one step. Those who can
    call close(): the route's start() when no console opens, the three background tasks, a task that write()
    makes when writing fails, the route when the client has gone, and the manager's shutdown(). */
module TerminalSessions {
  import opened Options

  datatype Actor = Starter | Drain | WaitProc | Watchdog | Writer | Route | Shutdown

  /** Dropped: the route was cancelled inside start(). */
  datatype Start = Starting | Opened | Failed | Dropped

  /** Where close() is, in the coroutine that got past its test of _closed. */
  datatype Close = NotClosing | Notifying(closer: Actor) | Killing(closer: Actor) | Deleting(closer: Actor)
                 | Closed(closer: Actor) | Abandoned(closer: Actor)

  /** tasks: the background tasks that have not ended. kills, calls, unregistered: how often the sandbox was
      killed, on_close called, and the manager's unregister called. listed: the session is in the list of
      sessions that the manager's shutdown() has made. late: start() opened the console after close() had
      begun; it is there for the statements only. */
  datatype Session = Session(start: Start, close: Close, masterFd: bool, tasks: set<Actor>,
                             kills: nat, calls: nat, unregistered: nat, listed: bool, late: bool)

  const NEW := Session(Starting, NotClosing, false, {}, 0, 0, 0, false, false)
  const BACKGROUND := {Drain, WaitProc, Watchdog}

  predicate InClose(s: Session) { s.close.Notifying? || s.close.Killing? || s.close.Deleting? }

  predicate InStart(s: Session) { s.start.Starting? && !(InClose(s) && s.close.closer == Starter) }

  /** Past the farewell message: the terminal is let go and the sandbox killed. */
  function LetGo(s: Session, actor: Actor): Session {
    s.(close := Killing(actor), masterFd := false, kills := s.kills + 1)
  }

  /** A call of close(): it does nothing but end the caller when someone else is closing. */
  function Begin(s: Session, actor: Actor): Session {
    if !s.close.NotClosing? then s.(tasks := s.tasks - {actor})
    else if actor == Watchdog then s.(close := Notifying(actor))
    else LetGo(s, actor)
  }

  /** The last stretch of close(), which calls on_close; for start() it goes on to the route's own unregister. */
  function TearDown(s: Session): Session
    requires InClose(s)
  {
    var gone := s.(close := Closed(s.close.closer), tasks := {}, calls := s.calls + 1,
        unregistered := s.unregistered + 1);
    if s.close.closer == Starter then StartFails(gone) else gone
  }

  function StartFails(s: Session): Session { s.(start := Failed, unregistered := s.unregistered + 1) }

  datatype Step =
    | Opens
    | StartRaises
    | ConsoleFails
    | Calls(actor: Actor)
    | Resumes(ok: bool)
    | CloserCancelled
    | StartCancelled
    | ShutdownLists

  /** shutdown() lists the sessions that are registered then, and closes them one after the other. The
      background tasks are cancelled by close() only, the others from outside. */
  predicate Enabled(s: Session, step: Step) {
    match step
    case Opens => InStart(s)
    case StartRaises => InStart(s)
    case ConsoleFails => InStart(s)
    case StartCancelled => InStart(s)
    case Calls(actor) =>
      if actor in BACKGROUND then actor in s.tasks && !(InClose(s) && s.close.closer == actor)
      else (actor == Shutdown && s.listed) || ((actor == Writer || actor == Route) && s.start.Opened?)
    case Resumes(_) => InClose(s)
    case ShutdownLists => s.unregistered == 0
    case CloserCancelled => InClose(s) && s.close.closer !in BACKGROUND
  }

  function Next(s: Session, step: Step): Session
    requires Enabled(s, step)
  {
    match step
    case Opens => s.(start := Opened, masterFd := true, tasks := BACKGROUND, late := !s.close.NotClosing?)
    case StartRaises => StartFails(s)
    case ConsoleFails => if s.close.NotClosing? then Begin(s, Starter) else StartFails(s)
    case StartCancelled => s.(start := Dropped)
    case ShutdownLists => s.(listed := true)
    case Calls(actor) => Begin(s, actor)
    case Resumes(ok) =>
      if s.close.Notifying? then LetGo(s, s.close.closer)
      else if s.close.Killing? && ok then s.(close := Deleting(s.close.closer))
      else TearDown(s)
    case CloserCancelled =>
      s.(close := Abandoned(s.close.closer), start := if s.close.closer == Starter then Dropped else s.start)
  }

  // ---------------------------------------------------------------- the object

  class TerminalSession {
    var closing: bool
    var masterFd: bool
    var tasks: set<Actor>
    var unregistered: nat
    /** Where start() and close() are. */
    ghost var start: Start
    ghost var close: Close
    ghost var kills: nat
    ghost var calls: nat
    ghost var listed: bool
    ghost var late: bool

    ghost function State(): Session
      reads this
    {
      Session(start, close, masterFd, tasks, kills, calls, unregistered, listed, late)
    }

    ghost predicate Valid()
      reads this
    {
      closing <==> !close.NotClosing?
    }

    constructor ()
      ensures Valid() && State() == NEW
    {
      closing, masterFd, tasks, unregistered := false, false, {}, 0;
      start, close, kills, calls, listed, late := Starting, NotClosing, 0, 0, false, false;
    }

    /** start(), from the console's arrival on */
    method Open()
      requires Valid() && Enabled(State(), Opens)
      modifies this
      ensures Valid() && State() == Next(old(State()), Opens)
    {
      masterFd := true;
      tasks := BACKGROUND;
      start, late := Opened, closing;
    }

    /** close(), up to its first await */
    method CallClose(actor: Actor) returns (first: bool)
      requires Valid()
      modifies this
      ensures Valid() && State() == Begin(old(State()), actor)
      ensures first == old(State().close.NotClosing?)
    {
      if closing {
        tasks := tasks - {actor};
        return false;
      }
      closing := true;
      if actor == Watchdog {
        close := Notifying(actor);
      } else {
        ReleaseMaster(actor);
      }
      return true;
    }

    method ReleaseMaster(ghost actor: Actor)
      requires closing
      modifies this
      ensures Valid() && closing && State() == LetGo(old(State()), actor)
    {
      if masterFd {
        masterFd := false;
      }
      close, kills := Killing(actor), kills + 1;
    }

    /** close(), after the await of _delete, or of a _kill or _delete that raised; fromStart: start() called it */
    method Finish(fromStart: bool)
      requires Valid() && InClose(State()) && !close.Notifying? && fromStart == (close.closer == Starter)
      modifies this
      ensures Valid() && State() == TearDown(old(State())) == Next(old(State()), Resumes(false))
    {
      tasks := {};
      unregistered := unregistered + 1;
      calls, close := calls + 1, Closed(close.closer);
      if fromStart {
        unregistered := unregistered + 1;
        start := Failed;
      }
    }

    /** The route, when start() has raised: mgr.unregister(session) */
    method Fail()
      requires Valid() && InStart(State())
      modifies this
      ensures Valid() && State() == StartFails(old(State())) == Next(old(State()), StartRaises)
    {
      unregistered := unregistered + 1;
      start := Failed;
    }
  }

  // ---------------------------------------------------------------- invariant

  predicate ClosedOnce(s: Session) {
    && s.calls == (if s.close.Closed? then 1 else 0)
    && (if s.close.NotClosing? || s.close.Notifying? then s.kills == 0 else s.kills == 1)
    && s.unregistered == s.calls + if s.start.Failed? then 1 else 0
  }

  predicate CloserOk(s: Session) {
    && (s.close.Notifying? ==> s.close.closer == Watchdog)
    && (InClose(s) && s.close.closer in BACKGROUND ==> s.close.closer in s.tasks)
    && (InClose(s) && s.close.closer == Starter ==> s.start.Starting?)
    && (s.close.Abandoned? ==> s.close.closer !in BACKGROUND)
    && (s.tasks != {} ==> s.start.Opened?)
    && (s.close.Notifying? ==> s.start.Opened? && !s.late)
    && (s.close.NotClosing? && s.start.Opened? ==> s.tasks == BACKGROUND)
  }

  predicate MasterOk(s: Session) {
    && (s.late ==> s.start.Opened? && !s.close.NotClosing?)
    && (s.masterFd <==> s.start.Opened? && (s.late || s.close.NotClosing? || s.close.Notifying?))
  }

  predicate Inv(s: Session) { ClosedOnce(s) && CloserOk(s) && MasterOk(s) }

  lemma StepKeepsInv(s: Session, step: Step)
    requires Inv(s) && Enabled(s, step)
    ensures Inv(Next(s, step))
  {
  }
}
