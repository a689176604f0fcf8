/** All terminal sessions together with their registry: app/api/routes.py over app/executor/terminal.py. */
module Terminals {
  import opened Options
  import M = TerminalManagers
  import S = TerminalSessions

  type Id = M.Id

  datatype Terminal = Terminal(who: string, life: S.Session)
  datatype House = House(registry: M.Registry, terminals: map<Id, Terminal>)

  const EMPTY := House(M.Registry(map[], map[]), map[])

  /** A check that passes is followed by Enter; what happens to one session is a step of its life. */
  datatype Step = Enter(id: Id, who: string) | Move(id: Id, step: S.Step)

  predicate Enabled(h: House, step: Step) {
    match step
    case Enter(id, _) => id !in h.terminals
    case Move(id, s) => id in h.terminals && S.Enabled(h.terminals[id].life, s)
  }

  /** unregister, n times */
  function Unregister(r: M.Registry, id: Id, who: string, n: nat): M.Registry
    decreases n
  {
    if n == 0 then r else Unregister(M.Unregistered(r, id, who), id, who, n - 1)
  }

  /** How often a step of a session calls the manager's unregister. */
  function Calls(t: Terminal, step: S.Step): int
    requires S.Enabled(t.life, step)
  {
    S.Next(t.life, step).unregistered - t.life.unregistered
  }

  function Next(h: House, step: Step): House
    requires Enabled(h, step)
  {
    match step
    case Enter(id, who) =>
      House(M.Registered(h.registry, id, who), h.terminals[id := Terminal(who, S.NEW)])
    case Move(id, s) =>
      var t := h.terminals[id];
      var n := Calls(t, s);
      House(if n < 0 then h.registry else Unregister(h.registry, id, t.who, n),
            h.terminals[id := t.(life := S.Next(t.life, s))])
  }

  // ---------------------------------------------------------------- invariant

  /** Neither torn down nor failed to start. */
  predicate Live(t: Terminal) { !t.life.close.Closed? && !t.life.start.Failed? }

  ghost predicate Lives(h: House) { forall id :: id in h.terminals ==> S.Inv(h.terminals[id].life) }

  /** The registry holds the live sessions. */
  ghost predicate Listed(h: House) {
    && (forall id :: id in h.registry.sessions <==> id in h.terminals && Live(h.terminals[id]))
    && (forall id :: id in h.registry.sessions ==> h.registry.sessions[id] == h.terminals[id].who)
  }

  lemma CallsAtMostTwice(t: Terminal, step: S.Step)
    requires S.Inv(t.life) && S.Enabled(t.life, step)
    ensures 0 <= Calls(t, step) <= 2 && S.Inv(S.Next(t.life, step))
    ensures t.life.unregistered + Calls(t, step) <= 2
  {
    S.StepKeepsInv(t.life, step);
  }

  lemma StepKeepsListed(h: House, step: Step)
    requires Lives(h) && Listed(h) && Enabled(h, step)
    ensures Lives(Next(h, step)) && Listed(Next(h, step))
  {
    match step
    case Enter(id, who) =>
    case Move(id, s) =>
      var t := h.terminals[id];
      CallsAtMostTwice(t, s);
  }

  // ---------------------------------------------------------------- accounting

  /** The other sessions of its identity that are still registered. */
  function Siblings(h: House, id: Id): set<Id>
    requires id in h.terminals
  {
    set x | x in h.terminals && x != id && h.terminals[x].who == h.terminals[id].who && Live(h.terminals[x])
  }

  /** The step after which this session is both closed and failed to start, while its identity has others. */
  predicate Miscounts(h: House, step: Step)
    requires Enabled(h, step)
  {
    && step.Move?
    && h.terminals[step.id].life.unregistered < 2
    && S.Next(h.terminals[step.id].life, step.step).close.Closed?
    && S.Next(h.terminals[step.id].life, step.step).start.Failed?
    && Siblings(h, step.id) != {}
  }

  /** What n calls of unregister for a session do to the counts. */
  lemma UnregisterIsExactWhen(h: House, id: Id, n: nat)
    requires Lives(h) && Listed(h) && id in h.terminals && M.Accounted(h.registry)
    requires n <= 2 && h.terminals[id].life.unregistered + n <= 2
    ensures M.Accounted(Unregister(h.registry, id, h.terminals[id].who, n)) <==>
            n == 0 || h.terminals[id].life.unregistered + n == 1 || Siblings(h, id) == {}
  {
    var who := h.terminals[id].who;
    assert S.Inv(h.terminals[id].life);
    var r1 := M.Unregistered(h.registry, id, who);
    if n > 0 {
      M.UnregisterIsExactWhen(h.registry, id, who);
      assert Unregister(h.registry, id, who, n) == Unregister(r1, id, who, n - 1);
      if Live(h.terminals[id]) {
        if n == 2 {
          M.UnregisterIsExactWhen(r1, id, who);
          assert Unregister(r1, id, who, 1) == M.Unregistered(r1, id, who) by {
            assert Unregister(M.Unregistered(r1, id, who), id, who, 0) == M.Unregistered(r1, id, who);
          }
        }
      } else {
        assert h.registry.sessions - {id} == h.registry.sessions;
      }
    }
  }

  lemma StepIsExactUnless(h: House, step: Step)
    requires Lives(h) && Listed(h) && M.Accounted(h.registry) && Enabled(h, step)
    ensures M.Accounted(Next(h, step).registry) <==> !Miscounts(h, step)
  {
    match step
    case Enter(id, who) =>
      M.RegisterKeepsAccounting(h.registry, id, who);
    case Move(id, s) =>
      var t := h.terminals[id];
      CallsAtMostTwice(t, s);
      UnregisterIsExactWhen(h, id, Calls(t, s));
  }

  function After(h: House, steps: seq<Step>): Option<House>
    decreases |steps|
  {
    if steps == [] then Some(h)
    else if !Enabled(h, steps[0]) then None
    else After(Next(h, steps[0]), steps[1..])
  }

  /** Whether a step of the run miscounts. */
  predicate SomeMiscounts(h: House, steps: seq<Step>)
    decreases |steps|
  {
    if steps == [] || !Enabled(h, steps[0]) then false
    else Miscounts(h, steps[0]) || SomeMiscounts(Next(h, steps[0]), steps[1..])
  }

  /** Whether the counts are right in every state of the run. */
  ghost predicate AlwaysAccounted(h: House, steps: seq<Step>)
    decreases |steps|
  {
    M.Accounted(h.registry) && (steps == [] || !Enabled(h, steps[0]) || AlwaysAccounted(Next(h, steps[0]), steps[1..]))
  }

  lemma {:induction false} RunIsExactUnless(h: House, steps: seq<Step>)
    requires Lives(h) && Listed(h) && M.Accounted(h.registry)
    ensures AlwaysAccounted(h, steps) <==> !SomeMiscounts(h, steps)
    decreases |steps|
  {
    if steps != [] && Enabled(h, steps[0]) {
      StepIsExactUnless(h, steps[0]);
      StepKeepsListed(h, steps[0]);
      if !Miscounts(h, steps[0]) {
        RunIsExactUnless(Next(h, steps[0]), steps[1..]);
      }
    }
  }

  /** From the start of the server on, however the lives of the sessions interleave: each identity is counted
      as often as it has registered sessions, at every moment, exactly when no session whose start failed is
      also closed while its identity has another one. */
  lemma CountsAreExactUnlessStartFails(steps: seq<Step>)
    ensures AlwaysAccounted(EMPTY, steps) <==> !SomeMiscounts(EMPTY, steps)
  {
    forall who ensures M.AccountedFor(EMPTY.registry, who) {
      assert M.Of(EMPTY.registry.sessions, who) == {};
    }
    RunIsExactUnless(EMPTY, steps);
  }

  /** The live sessions of an identity. */
  function LiveOf(h: House, who: string): set<Id> {
    set id | id in h.terminals && h.terminals[id].who == who && Live(h.terminals[id])
  }

  lemma {:induction false} RunKeepsListed(h: House, steps: seq<Step>, h': House)
    requires Lives(h) && Listed(h) && After(h, steps) == Some(h')
    ensures Lives(h') && Listed(h') && (AlwaysAccounted(h, steps) ==> M.Accounted(h'.registry))
    decreases |steps|
  {
    if steps != [] {
      StepKeepsListed(h, steps[0]);
      RunKeepsListed(Next(h, steps[0]), steps[1..], h');
    }
  }

  /** So, in a run in which nothing miscounts, by_identity is the number of live sessions; the registry itself
      holds exactly the live ones in every run. */
  lemma CountIsLiveSessions(steps: seq<Step>, h: House, who: string)
    requires After(EMPTY, steps) == Some(h)
    ensures h.registry.sessions.Keys == set id | id in h.terminals && Live(h.terminals[id])
    ensures !SomeMiscounts(EMPTY, steps) ==> M.Count(h.registry, who) == |LiveOf(h, who)|
  {
    RunKeepsListed(EMPTY, steps, h);
    CountsAreExactUnlessStartFails(steps);
    assert M.Of(h.registry.sessions, who) == LiveOf(h, who);
    assert M.AccountedFor(h.registry, who) || SomeMiscounts(EMPTY, steps);
  }

  /** Where registry and sandboxes part, in every run: a sandbox that was never killed is out of the registry
      exactly if its start raised before anyone had begun to close it, and one that was killed is still in
      the registry exactly while its close is under way, or was abandoned, and its start has not failed. */
  lemma RegistryAndSandboxesPartExactly(steps: seq<Step>, h: House, id: Id)
    requires After(EMPTY, steps) == Some(h) && id in h.terminals
    ensures var life := h.terminals[id].life;
            && (id !in h.registry.sessions && life.kills == 0 <==> life.start.Failed? && life.close.NotClosing?)
            && (id in h.registry.sessions && life.kills > 0 <==>
                !life.start.Failed? && (life.close.Killing? || life.close.Deleting? || life.close.Abandoned?))
  {
    RunKeepsListed(EMPTY, steps, h);
    assert S.Inv(h.terminals[id].life);
  }
}
