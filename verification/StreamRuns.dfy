/** The live path over every run: every interleaving of the two pumps, the generator and the deadline. */
module StreamRuns {
  import opened Options
  import opened Sequences
  import opened Output

  function After(j: Job, s: Stream, steps: seq<Step>): Option<Stream>
    decreases |steps|
  {
    if steps == [] then Some(s)
    else if !Enabled(j, s, steps[0]) then None
    else After(j, Next(j, s, steps[0]), steps[1..])
  }

  lemma {:induction false} RunKeepsPump(j: Job, s: Stream, steps: seq<Step>, s': Stream, src: Source)
    requires PumpOk(j, s, src) && After(j, s, steps) == Some(s')
    ensures PumpOk(j, s', src)
    decreases |steps|
  {
    if steps != [] {
      StepKeepsPump(j, s, steps[0], src);
      RunKeepsPump(j, Next(j, s, steps[0]), steps[1..], s', src);
    }
  }

  lemma {:induction false} RunKeepsQueue(j: Job, s: Stream, steps: seq<Step>, s': Stream)
    requires QueueOk(s) && After(j, s, steps) == Some(s')
    ensures QueueOk(s')
    decreases |steps|
  {
    if steps != [] {
      StepKeepsQueue(j, s, steps[0]);
      RunKeepsQueue(j, Next(j, s, steps[0]), steps[1..], s');
    }
  }

  lemma {:induction false} RunKeepsEvents(j: Job, s: Stream, steps: seq<Step>, s': Stream)
    requires EventsOk(s) && After(j, s, steps) == Some(s')
    ensures EventsOk(s')
    decreases |steps|
  {
    if steps != [] {
      RunKeepsEvents(j, Next(j, s, steps[0]), steps[1..], s');
    }
  }

  lemma PumpInRun(j: Job, steps: seq<Step>, s: Stream, src: Source)
    requires After(j, Fresh(), steps) == Some(s)
    ensures Flows(PumpOf(s, src), Written(j, src), j.cap, Sent(s.events, src), Queued(s.q, src))
  {
    RunKeepsPump(j, Fresh(), steps, s, src);
  }

  lemma {:induction false} ChunksFlatten(events: seq<Event>, src: Source)
    ensures Flatten(Chunks(events, src)) == Sent(events, src)
  {
    if events != [] {
      var p, e := events[..|events| - 1], events[|events| - 1];
      ChunksFlatten(p, src);
      assert Chunks(p, src) + [] == Chunks(p, src) && Sent(p, src) + [] == Sent(p, src);
    }
  }

  /** At every moment, and however the run ends, the client has been sent a prefix of what the one-shot
      reader returns. */
  lemma StreamSendsPrefix(j: Job, steps: seq<Step>, s: Stream, src: Source)
    requires After(j, Fresh(), steps) == Some(s)
    ensures Flatten(Chunks(s.events, src)) <= Capped(Written(j, src), j.cap)
  {
    PumpInRun(j, steps, s, src);
    ChunksFlatten(s.events, src);
  }

  predicate NoneFrom(q: seq<Item>, src: Source) { q == [] || (q[0].src != src && NoneFrom(q[1..], src)) }

  lemma {:induction false} NoneFromIntro(q: seq<Item>, src: Source)
    requires forall i :: 0 <= i < |q| ==> q[i].src != src
    ensures NoneFrom(q, src)
  {
    if q != [] {
      NoneFromIntro(q[1..], src);
    }
  }

  lemma BothTakenIsDrained(s: Stream)
    requires QueueOk(s) && s.eofs >= 2
    ensures s.q == [] && s.out.ended && s.err.ended
  {
    assert EofTaken(s, Out) == 1 && EofTaken(s, Err) == 1;
    NoneFromIntro(s.q, Out);
    NoneFromIntro(s.q, Err);
  }

  lemma MemberSplits(steps: seq<Step>, x: Step)
    requires steps != []
    ensures x in steps <==> x == steps[0] || x in steps[1..]
  {
    assert steps == [steps[0]] + steps[1..];
  }

  /** The steps that can end the output of a run, and so tell how it ended. */
  lemma EndingSplits(steps: seq<Step>)
    requires steps != []
    ensures Expires in steps <==> steps[0] == Expires || Expires in steps[1..]
    ensures Finishes in steps <==> steps[0] == Finishes || Finishes in steps[1..]
    ensures Raises in steps <==> steps[0] == Raises || Raises in steps[1..]
    ensures forall h :: Compiles(false, h) in steps <==>
              steps[0] == Compiles(false, h) || Compiles(false, h) in steps[1..]
  {
    assert steps == [steps[0]] + steps[1..];
  }

  /** Before the merge nothing has been read, queued or sent. */
  predicate EarlyOk(s: Stream) {
    s.phase.Staging? || s.phase.Compiling? ==> s.out == Idle() && s.err == Idle() && s.q == [] && s.events == []
  }

  predicate EndsWith(s: Stream, r: Result) { s.events != [] && s.events[|s.events| - 1] == Done(r) }

  lemma LastStep(j: Job, s: Stream, step: Step)
    requires EarlyOk(s) && Enabled(j, s, step)
    ensures var s' := Next(j, s, step);
            && EarlyOk(s') && s'.timedOut == (s.timedOut || step == Expires)
            && (s'.phase.Over? <==> step == Finishes || step == Raises || (step.Compiles? && !step.ok))
            && (step == Finishes ==> EndsWith(s', Ran(s.timedOut, s.out.truncated, s.err.truncated)))
            && (step == Raises ==> EndsWith(s', Failed))
            && (step.Compiles? && !step.ok ==>
                  s'.events == (if step.hasStderr then [CompileOutput, Done(CompileFailed)] else [Done(CompileFailed)]))
  {
    if step.Compiles? && !step.ok && step.hasStderr {
      assert [] + [CompileOutput] + [Done(CompileFailed)] == [CompileOutput, Done(CompileFailed)];
    }
  }

  /** How a run that is not over yet goes on, told from its steps. */
  lemma {:induction false} RunTells(j: Job, s: Stream, steps: seq<Step>, s': Stream)
    requires EarlyOk(s) && !s.phase.Over? && After(j, s, steps) == Some(s')
    ensures s'.timedOut <==> s.timedOut || Expires in steps
    ensures s'.phase.Over? <==> Finishes in steps || Raises in steps || (exists h :: Compiles(false, h) in steps)
    ensures Finishes in steps ==> EndsWith(s', Ran(s'.timedOut, s'.out.truncated, s'.err.truncated))
    ensures Raises in steps ==> EndsWith(s', Failed)
    ensures forall h :: Compiles(false, h) in steps ==>
              s'.events == if h then [CompileOutput, Done(CompileFailed)] else [Done(CompileFailed)]
    decreases |steps|
  {
    if steps != [] {
      var next := Next(j, s, steps[0]);
      EndingSplits(steps);
      LastStep(j, s, steps[0]);
      if next.phase.Over? {
        OverStops(j, next, steps[1..]);
      } else {
        RunTells(j, next, steps[1..], s');
      }
    }
  }

  lemma OverStops(j: Job, s: Stream, steps: seq<Step>)
    requires s.phase.Over? && After(j, s, steps).Some?
    ensures steps == []
  {
  }

  /** The timed_out of the result is true exactly when the deadline expired during the run. */
  lemma TimedOutExactly(j: Job, steps: seq<Step>, s: Stream, timed: bool, to: bool, te: bool)
    requires After(j, Fresh(), steps) == Some(s) && EndsWith(s, Ran(timed, to, te))
    ensures Finishes in steps && (timed <==> Expires in steps)
  {
    RunTells(j, Fresh(), steps, s);
    RunKeepsEvents(j, Fresh(), steps, s);
  }

  /** Which of its four endings a run has, and what a failed compile sends: its output, if it has any, and the
      done event, and nothing else. */
  lemma EndingExactly(j: Job, steps: seq<Step>, s: Stream)
    requires After(j, Fresh(), steps) == Some(s)
    ensures (exists to, te :: EndsWith(s, Ran(Expires in steps, to, te))) <==> Finishes in steps
    ensures EndsWith(s, Failed) <==> Raises in steps
    ensures EndsWith(s, CompileFailed) <==> Compiles(false, false) in steps || Compiles(false, true) in steps
    ensures Compiles(false, true) in steps ==> s.events == [CompileOutput, Done(CompileFailed)]
    ensures Compiles(false, false) in steps ==> s.events == [Done(CompileFailed)]
    ensures CompileOutput in s.events <==> Compiles(false, true) in steps
  {
    RunTells(j, Fresh(), steps, s);
    RunKeepsEvents(j, Fresh(), steps, s);
    RunSendsCompileOutput(j, Fresh(), steps, s);
    if Finishes in steps {
      assert EndsWith(s, Ran(Expires in steps, s.out.truncated, s.err.truncated));
    }
  }

  lemma {:induction false} RunSendsCompileOutput(j: Job, s: Stream, steps: seq<Step>, s': Stream)
    requires After(j, s, steps) == Some(s')
    ensures CompileOutput in s'.events <==> CompileOutput in s.events || Compiles(false, true) in steps
    decreases |steps|
  {
    if steps != [] {
      MemberSplits(steps, Compiles(false, true));
      RunSendsCompileOutput(j, Next(j, s, steps[0]), steps[1..], s');
    }
  }

  predicate Runs(step: Step) { step.PumpReads? || step.PumpEnds? || step.Delivers? || step.Expires? }

  /** Nothing of the run phase happens before the sources are staged, and, for a compiled language, before a
      compile has ended well. */
  lemma {:induction false} RunsAfterCompile(j: Job, s: Stream, steps: seq<Step>, i: nat)
    requires After(j, s, steps).Some? && i < |steps| && Runs(steps[i]) && (s.phase.Staging? || s.phase.Compiling?)
    requires s.phase.Compiling? ==> j.compiled
    ensures s.phase.Staging? ==> Staged in steps[..i]
    ensures j.compiled ==> Compiles(true, false) in steps[..i] || Compiles(true, true) in steps[..i]
    decreases |steps|
  {
    assert i > 0;
    assert steps[..i][0] == steps[0] && steps[..i][1..] == steps[1..][..i - 1];
    var next := Next(j, s, steps[0]);
    if next.phase.Compiling? {
      RunsAfterCompile(j, next, steps[1..], i - 1);
      assert steps[1..][..i - 1] <= steps[1..];
      assert forall x :: x in steps[..i][1..] ==> x in steps[..i];
    } else if next.phase.Over? {
      OverStops(j, next, steps[1..]);
    }
  }

  // ---------------------------------------------------------------- an untimed end can always be reached

  predicate EndsUntimed(j: Job, s: Stream, more: seq<Step>) {
    After(j, s, more).Some? && Finishes in more && Expires !in more && Raises !in more
  }

  lemma Prepend(j: Job, s: Stream, step: Step, more: seq<Step>)
    requires Enabled(j, s, step) && EndsUntimed(j, Next(j, s, step), more) && step != Expires && step != Raises
    ensures EndsUntimed(j, s, [step] + more)
  {
    assert ([step] + more)[1..] == more;
  }

  function Unread(j: Job, s: Stream): int { |j.out| + |j.err| - s.out.read - s.err.read }

  function Open(p: Pump): nat { if p.ended then 0 else 1 }

  /** What the pumps and the generator do next. */
  function MergeStep(j: Job, s: Stream): Step {
    if s.eofs >= 2 then BothEnded
    else if s.q != [] then Delivers
    else
      var src := if s.out.ended then Err else Out;
      if PumpOf(s, src).read >= |Written(j, src)| then PumpEnds(src) else PumpReads(src, 1)
  }

  ghost predicate MergeOk(j: Job, s: Stream) { PumpOk(j, s, Out) && PumpOk(j, s, Err) && QueueOk(s) }

  function Work(j: Job, s: Stream): int { 2 * Unread(j, s) + 2 * Open(s.out) + 2 * Open(s.err) + |s.q| }

  lemma MergeStepIsEnabled(j: Job, s: Stream)
    requires MergeOk(j, s) && s.phase.Merging? && s.eofs < 2
    ensures Enabled(j, s, MergeStep(j, s))
  {
    assert s.q == [] ==> !s.out.ended || !s.err.ended;
  }

  lemma MergeStepWorks(j: Job, s: Stream)
    requires s.phase.Merging? && s.eofs < 2 && Enabled(j, s, MergeStep(j, s))
    ensures Next(j, s, MergeStep(j, s)).phase.Merging? && Work(j, Next(j, s, MergeStep(j, s))) < Work(j, s)
  {
  }

  lemma MergeStepKeeps(j: Job, s: Stream, step: Step)
    requires MergeOk(j, s) && Enabled(j, s, step)
    ensures MergeOk(j, Next(j, s, step))
  {
    StepKeepsPump(j, s, step, Out);
    StepKeepsPump(j, s, step, Err);
    StepKeepsQueue(j, s, step);
  }

  lemma FinishEnds(j: Job, s: Stream)
    requires s.phase.Draining?
    ensures EndsUntimed(j, s, [Finishes])
  {
    assert [Finishes][1..] == [];
    assert After(j, Next(j, s, Finishes), []).Some?;
  }

  lemma WorkIsBounded(j: Job, s: Stream)
    requires MergeOk(j, s)
    ensures Work(j, s) >= 0
  {
  }

  lemma {:induction false} MergeEnds(j: Job, s: Stream, work: int) returns (more: seq<Step>)
    requires MergeOk(j, s) && s.phase.Merging? && work == Work(j, s)
    ensures EndsUntimed(j, s, more)
    decreases work
  {
    WorkIsBounded(j, s);
    var step := MergeStep(j, s);
    if s.eofs >= 2 {
      more := [Finishes];
      FinishEnds(j, Next(j, s, BothEnded));
    } else {
      MergeStepIsEnabled(j, s);
      MergeStepWorks(j, s);
      MergeStepKeeps(j, s, step);
      WorkIsBounded(j, Next(j, s, step));
      more := MergeEnds(j, Next(j, s, step), Work(j, Next(j, s, step)));
    }
    Prepend(j, s, step, more);
    more := [step] + more;
  }

  /** From every reachable state that is not over, and in which the deadline has not expired, the run can still
      end by both streams ending. */
  lemma UntimedEndIsReached(j: Job, steps: seq<Step>, s: Stream) returns (more: seq<Step>)
    requires After(j, Fresh(), steps) == Some(s) && Expires !in steps && !s.phase.Over?
    ensures EndsUntimed(j, s, more)
  {
    RunKeepsPump(j, Fresh(), steps, s, Out);
    RunKeepsPump(j, Fresh(), steps, s, Err);
    RunKeepsQueue(j, Fresh(), steps, s);
    more := PhaseEnds(j, s);
  }

  lemma PhaseEnds(j: Job, s: Stream) returns (more: seq<Step>)
    requires MergeOk(j, s) && !s.phase.Over?
    ensures EndsUntimed(j, s, more)
    decreases if s.phase.Staging? then 1 else 0
  {
    if s.phase.Staging? {
      MergeStepKeeps(j, s, Staged);
      more := PhaseEnds(j, Next(j, s, Staged));
      Prepend(j, s, Staged, more);
      more := [Staged] + more;
    } else if s.phase.Compiling? {
      var next := Next(j, s, Compiles(true, false));
      MergeStepKeeps(j, s, Compiles(true, false));
      more := MergeEnds(j, next, Work(j, next));
      Prepend(j, s, Compiles(true, false), more);
      more := [Compiles(true, false)] + more;
    } else if s.phase.Merging? {
      more := MergeEnds(j, s, Work(j, s));
    } else {
      more := [Finishes];
      FinishEnds(j, s);
    }
  }

  /** A run that finishes without the deadline expiring has sent, of each stream, exactly what the one-shot
      reader returns for any chunking of the same output, with the same truncated flag, and says that it did
      not time out. */
  lemma StreamEqualsOneShot(j: Job, steps: seq<Step>, s: Stream)
    requires After(j, Fresh(), steps) == Some(s) && Finishes in steps && Expires !in steps
    ensures EndsWith(s, Ran(false, Truncated(|j.out|, j.cap), Truncated(|j.err|, j.cap)))
    ensures Flatten(Chunks(s.events, Out)) == Capped(j.out, j.cap)
    ensures Flatten(Chunks(s.events, Err)) == Capped(j.err, j.cap)
  {
    RunTells(j, Fresh(), steps, s);
    UntimedIsDrained(j, steps, s);
    DrainedIsWhole(j, steps, s, Out);
    DrainedIsWhole(j, steps, s, Err);
  }

  lemma DrainedIsWhole(j: Job, steps: seq<Step>, s: Stream, src: Source)
    requires After(j, Fresh(), steps) == Some(s) && s.q == [] && PumpOf(s, src).ended
    ensures Flatten(Chunks(s.events, src)) == Capped(Written(j, src), j.cap)
    ensures PumpOf(s, src).truncated == Truncated(|Written(j, src)|, j.cap)
  {
    PumpInRun(j, steps, s, src);
    ChunksFlatten(s.events, src);
  }

  lemma UntimedIsDrained(j: Job, steps: seq<Step>, s: Stream)
    requires After(j, Fresh(), steps) == Some(s) && s.events != []
    requires s.events[|s.events| - 1].Done? && s.events[|s.events| - 1].result.Ran? &&
             !s.events[|s.events| - 1].result.timedOut
    ensures s.q == [] && s.out.ended && s.err.ended
    ensures s.events[|s.events| - 1].result == Ran(false, s.out.truncated, s.err.truncated)
  {
    RunKeepsEvents(j, Fresh(), steps, s);
    RunKeepsQueue(j, Fresh(), steps, s);
    BothTakenIsDrained(s);
  }

  ghost predicate NoEmptyChunk(s: Stream) {
    && (forall i :: 0 <= i < |s.q| && s.q[i].Data? ==> s.q[i].bytes != [])
    && (forall i :: 0 <= i < |s.events| && s.events[i].Chunk? ==> s.events[i].bytes != [])
  }

  lemma {:induction false} RunSendsNoEmptyChunk(j: Job, s: Stream, steps: seq<Step>, s': Stream)
    requires NoEmptyChunk(s) && After(j, s, steps) == Some(s')
    ensures NoEmptyChunk(s')
    decreases |steps|
  {
    if steps != [] {
      RunSendsNoEmptyChunk(j, Next(j, s, steps[0]), steps[1..], s');
    }
  }

  lemma {:induction false} ChunksFromEvents(events: seq<Event>, src: Source)
    requires forall i :: 0 <= i < |events| && events[i].Chunk? ==> events[i].bytes != []
    ensures forall i :: 0 <= i < |Chunks(events, src)| ==> Chunks(events, src)[i] != []
  {
    if events != [] {
      ChunksFromEvents(events[..|events| - 1], src);
    }
  }

  lemma ChunksAreNonEmpty(j: Job, steps: seq<Step>, s: Stream, src: Source)
    requires After(j, Fresh(), steps) == Some(s)
    ensures forall i :: 0 <= i < |Chunks(s.events, src)| ==> Chunks(s.events, src)[i] != []
  {
    RunSendsNoEmptyChunk(j, Fresh(), steps, s);
    ChunksFromEvents(s.events, src);
  }

  /** The last event of a finished stream is its one done event; before that there is none. */
  lemma OneDoneEventLast(j: Job, steps: seq<Step>, s: Stream)
    requires After(j, Fresh(), steps) == Some(s)
    ensures forall i :: 0 <= i < |s.events| ==> (s.events[i].Done? <==> s.phase.Over? && i == |s.events| - 1)
    ensures s.phase.Over? ==> s.events != []
  {
    RunKeepsEvents(j, Fresh(), steps, s);
  }
}
