/** The registry of terminal sessions, TerminalManager in app/executor/terminal.py, and the two steps in which
    the route goes through it: the check, and, after an await, the registration. */
module TerminalManagers {
  import opened Options

  type Id = nat

  datatype Caps = Caps(total: int, perUser: int)
  datatype Reason = ServerLimit | UserLimit
  /** sessions gives each session's identity. */
  datatype Registry = Registry(sessions: map<Id, string>, byIdentity: map<string, int>)

  function Count(r: Registry, who: string): int { if who in r.byIdentity then r.byIdentity[who] else 0 }

  function Rejection(c: Caps, r: Registry, who: string, admin: bool): Option<Reason> {
    if |r.sessions.Keys| >= c.total then Some(ServerLimit)
    else if !admin && Count(r, who) >= c.perUser then Some(UserLimit)
    else None
  }

  function Registered(r: Registry, id: Id, who: string): Registry {
    Registry(r.sessions[id := who], r.byIdentity[who := Count(r, who) + 1])
  }

  function Unregistered(r: Registry, id: Id, who: string): Registry {
    var n := Count(r, who) - 1;
    Registry(r.sessions - {id}, if n <= 0 then r.byIdentity - {who} else r.byIdentity[who := n])
  }

  class TerminalManager {
    const caps: Caps
    var sessions: map<Id, string>
    var byIdentity: map<string, int>

    ghost function State(): Registry
      reads this
    {
      Registry(sessions, byIdentity)
    }

    constructor (caps: Caps)
      ensures this.caps == caps && State() == Registry(map[], map[])
    {
      this.caps, sessions, byIdentity := caps, map[], map[];
    }

    method Reject(who: string, admin: bool) returns (reason: Option<Reason>)
      ensures reason == Rejection(caps, State(), who, admin)
      ensures reason == Some(ServerLimit) <==> |sessions.Keys| >= caps.total
      ensures reason == Some(UserLimit) <==>
                |sessions.Keys| < caps.total && !admin &&
                (if who in byIdentity then byIdentity[who] else 0) >= caps.perUser
    {
      if |sessions| >= caps.total {
        assert |sessions| == |sessions.Keys|;
        return Some(ServerLimit);
      }
      var n := if who in byIdentity then byIdentity[who] else 0;
      if !admin && n >= caps.perUser {
        return Some(UserLimit);
      }
      return None;
    }

    method Register(id: Id, who: string)
      modifies this
      ensures State() == Registered(old(State()), id, who)
    {
      sessions := sessions[id := who];
      var n := if who in byIdentity then byIdentity[who] else 0;
      byIdentity := byIdentity[who := n + 1];
    }

    method Unregister(id: Id, who: string)
      modifies this
      ensures State() == Unregistered(old(State()), id, who)
    {
      sessions := sessions - {id};
      var n := if who in byIdentity then byIdentity[who] - 1 else -1;
      if n <= 0 {
        byIdentity := byIdentity - {who};
      } else {
        byIdentity := byIdentity[who := n];
      }
    }
  }

  // ---------------------------------------------------------------- accounting

  /** The ids that m gives to an identity. */
  function Of(m: map<Id, string>, who: string): set<Id> { set id | id in m && m[id] == who }

  ghost predicate AccountedFor(r: Registry, who: string) {
    && Count(r, who) == |Of(r.sessions, who)|
    && (who in r.byIdentity <==> Of(r.sessions, who) != {})
  }

  /** Each identity is counted as often as it has sessions, and has no entry when it has none. */
  ghost predicate Accounted(r: Registry) { forall who :: AccountedFor(r, who) }

  lemma KeysAdded(m: map<Id, string>, id: Id, who: string)
    requires id !in m
    ensures |m[id := who].Keys| == |m.Keys| + 1
  {
    assert m[id := who].Keys == m.Keys + {id};
  }

  lemma KeysRemoved(m: map<Id, string>, id: Id)
    requires id in m
    ensures |(m - {id}).Keys| == |m.Keys| - 1
  {
    assert (m - {id}).Keys == m.Keys - {id};
  }

  lemma OfAdded(m: map<Id, string>, id: Id, who: string, other: string)
    requires id !in m
    ensures |Of(m[id := who], other)| == |Of(m, other)| + if other == who then 1 else 0
  {
    if other == who {
      assert Of(m[id := who], other) == Of(m, other) + {id};
    } else {
      assert Of(m[id := who], other) == Of(m, other);
    }
  }

  lemma OfRemoved(m: map<Id, string>, id: Id, other: string)
    requires id in m
    ensures |Of(m - {id}, other)| == |Of(m, other)| - if other == m[id] then 1 else 0
  {
    if other == m[id] {
      assert Of(m - {id}, other) == Of(m, other) - {id};
    } else {
      assert Of(m - {id}, other) == Of(m, other);
    }
  }

  lemma RegisterKeepsAccounting(r: Registry, id: Id, who: string)
    requires Accounted(r) && id !in r.sessions
    ensures Accounted(Registered(r, id, who))
  {
    forall other ensures AccountedFor(Registered(r, id, who), other) {
      assert AccountedFor(r, other);
      OfAdded(r.sessions, id, who, other);
    }
  }

  lemma UnregisterOfLive(r: Registry, id: Id, who: string)
    requires Accounted(r) && id in r.sessions && r.sessions[id] == who
    ensures Accounted(Unregistered(r, id, who))
  {
    forall other ensures AccountedFor(Unregistered(r, id, who), other) {
      assert AccountedFor(r, other);
      OfRemoved(r.sessions, id, other);
    }
  }

  /** The count stays right exactly when the session is still registered, or its identity has no session. */
  lemma UnregisterIsExactWhen(r: Registry, id: Id, who: string)
    requires Accounted(r) && (id in r.sessions ==> r.sessions[id] == who)
    ensures Accounted(Unregistered(r, id, who)) <==> id in r.sessions || Of(r.sessions, who) == {}
  {
    assert AccountedFor(r, who);
    if id in r.sessions {
      UnregisterOfLive(r, id, who);
    } else {
      assert r.sessions - {id} == r.sessions;
      if Of(r.sessions, who) == {} {
        assert Unregistered(r, id, who) == r by { assert r.byIdentity - {who} == r.byIdentity; }
      } else {
        assert !AccountedFor(Unregistered(r, id, who), who);
      }
    }
  }

  // ---------------------------------------------------------------- the route

  /** waiting: the requests between their check and their registration. */
  datatype Desk = Desk(registry: Registry, waiting: map<Id, string>)

  const EMPTY := Desk(Registry(map[], map[]), map[])

  datatype Step =
    | Check(id: Id, who: string, admin: bool)
    | Accept(id: Id)
    | GiveUp(id: Id)
    | Unregister(id: Id, who: string)

  predicate Enabled(d: Desk, step: Step) {
    match step
    case Check(id, _, _) => id !in d.waiting && id !in d.registry.sessions
    case Accept(id) => id in d.waiting && id !in d.registry.sessions
    case GiveUp(id) => id in d.waiting
    case Unregister(id, who) => id in d.registry.sessions ==> d.registry.sessions[id] == who
  }

  function Next(c: Caps, d: Desk, step: Step): Desk
    requires Enabled(d, step)
  {
    match step
    case Check(id, who, admin) =>
      if Rejection(c, d.registry, who, admin).Some? then d else d.(waiting := d.waiting[id := who])
    case Accept(id) => Desk(Registered(d.registry, id, d.waiting[id]), d.waiting - {id})
    case GiveUp(id) => d.(waiting := d.waiting - {id})
    case Unregister(id, who) => d.(registry := Unregistered(d.registry, id, who))
  }

  function After(c: Caps, d: Desk, steps: seq<Step>): Option<Desk>
    decreases |steps|
  {
    if steps == [] then Some(d)
    else if !Enabled(d, steps[0]) then None
    else After(c, Next(c, d, steps[0]), steps[1..])
  }

  function Max(a: nat, b: nat): nat { if a < b then b else a }

  /** The most requests that wait at once in a run. */
  function Peak(c: Caps, d: Desk, steps: seq<Step>): nat
    decreases |steps|
  {
    if steps == [] || !Enabled(d, steps[0]) then |d.waiting.Keys|
    else Max(|d.waiting.Keys|, Peak(c, Next(c, d, steps[0]), steps[1..]))
  }

  /** The same for one identity. */
  function PeakOf(c: Caps, d: Desk, steps: seq<Step>, who: string): nat
    decreases |steps|
  {
    if steps == [] || !Enabled(d, steps[0]) then |Of(d.waiting, who)|
    else Max(|Of(d.waiting, who)|, PeakOf(c, Next(c, d, steps[0]), steps[1..], who))
  }

  /** Every unregistration of the run is of a registered session, or of an identity that has none. */
  predicate Orderly(c: Caps, d: Desk, steps: seq<Step>)
    decreases |steps|
  {
    if steps == [] || !Enabled(d, steps[0]) then true
    else
      && (steps[0].Unregister? ==> steps[0].id in d.registry.sessions || Of(d.registry.sessions, steps[0].who) == {})
      && Orderly(c, Next(c, d, steps[0]), steps[1..])
  }

  lemma StepKeepsAccounting(c: Caps, d: Desk, step: Step)
    requires Accounted(d.registry) && Enabled(d, step)
    ensures Accounted(Next(c, d, step).registry) <==>
            (step.Unregister? ==> step.id in d.registry.sessions || Of(d.registry.sessions, step.who) == {})
  {
    match step
    case Accept(id) => RegisterKeepsAccounting(d.registry, id, d.waiting[id]);
    case Unregister(id, who) => UnregisterIsExactWhen(d.registry, id, who);
    case _ =>
  }

  /** Whether the counts are right at every moment of a run. */
  ghost predicate AlwaysAccounted(c: Caps, d: Desk, steps: seq<Step>)
    decreases |steps|
  {
    Accounted(d.registry) && (steps == [] || !Enabled(d, steps[0]) ||
        AlwaysAccounted(c, Next(c, d, steps[0]), steps[1..]))
  }

  /** In any run, however checks, registrations and unregistrations interleave, the counts are always right
      exactly when the run is orderly. */
  lemma {:induction false} CountsAreRightExactlyInOrderlyRuns(c: Caps, d: Desk, steps: seq<Step>)
    requires Accounted(d.registry)
    ensures AlwaysAccounted(c, d, steps) <==> Orderly(c, d, steps)
    decreases |steps|
  {
    if steps != [] && Enabled(d, steps[0]) {
      StepKeepsAccounting(c, d, steps[0]);
      var d' := Next(c, d, steps[0]);
      if Accounted(d'.registry) {
        CountsAreRightExactlyInOrderlyRuns(c, d', steps[1..]);
      }
    }
  }

  // ---------------------------------------------------------------- the caps

  predicate WithinTotal(c: Caps, d: Desk, p: nat) { |d.registry.sessions.Keys| + |d.waiting.Keys| <= c.total + p - 1 }

  lemma StepKeepsTotal(c: Caps, d: Desk, step: Step, p: nat)
    requires WithinTotal(c, d, p) && Enabled(d, step) && |Next(c, d, step).waiting.Keys| <= p
    ensures WithinTotal(c, Next(c, d, step), p)
  {
    match step
    case Check(id, who, _) => KeysAdded(d.waiting, id, who);
    case Accept(id) =>
      KeysAdded(d.registry.sessions, id, d.waiting[id]);
      KeysRemoved(d.waiting, id);
    case GiveUp(id) => KeysRemoved(d.waiting, id);
    case Unregister(id, who) =>
      assert (d.registry.sessions - {id}).Keys == d.registry.sessions.Keys - {id};
  }

  /** The server cap is exceeded by no more than the number of requests waiting at once, less one. It is kept
      when the check and the registration are one step: when no two requests wait at once. */
  lemma {:induction false} TotalIsBounded(c: Caps, d: Desk, steps: seq<Step>, p: nat, d': Desk)
    requires WithinTotal(c, d, p) && Peak(c, d, steps) <= p && After(c, d, steps) == Some(d')
    ensures |d'.registry.sessions.Keys| + |d'.waiting.Keys| <= c.total + p - 1
    decreases |steps|
  {
    if steps != [] {
      var next := Next(c, d, steps[0]);
      StepKeepsTotal(c, d, steps[0], p);
      TotalIsBounded(c, next, steps[1..], p, d');
    }
  }

  /** No request of this identity is an administrator's. */
  predicate Ordinary(steps: seq<Step>, who: string) {
    forall i :: 0 <= i < |steps| && steps[i].Check? && steps[i].who == who ==> !steps[i].admin
  }

  predicate WithinUser(c: Caps, d: Desk, who: string, p: nat) {
    |Of(d.registry.sessions, who)| + |Of(d.waiting, who)| <= c.perUser + p - 1
  }

  lemma CheckKeepsUser(c: Caps, d: Desk, step: Step, who: string, p: nat)
    requires WithinUser(c, d, who, p) && Enabled(d, step) && |Of(Next(c, d, step).waiting, who)| <= p
    requires AccountedFor(d.registry, who) && step.Check? && (step.who == who ==> !step.admin)
    ensures WithinUser(c, Next(c, d, step), who, p)
  {
    OfAdded(d.waiting, step.id, step.who, who);
  }

  lemma AcceptKeepsUser(c: Caps, d: Desk, id: Id, who: string, p: nat)
    requires WithinUser(c, d, who, p) && Enabled(d, Accept(id))
    ensures WithinUser(c, Next(c, d, Accept(id)), who, p)
  {
    OfAdded(d.registry.sessions, id, d.waiting[id], who);
    OfRemoved(d.waiting, id, who);
  }

  lemma LeavingKeepsUser(c: Caps, d: Desk, step: Step, who: string, p: nat)
    requires WithinUser(c, d, who, p) && Enabled(d, step) && (step.GiveUp? || step.Unregister?)
    ensures WithinUser(c, Next(c, d, step), who, p)
  {
    if step.GiveUp? {
      OfRemoved(d.waiting, step.id, who);
    } else if step.id in d.registry.sessions {
      OfRemoved(d.registry.sessions, step.id, who);
    } else {
      assert d.registry.sessions - {step.id} == d.registry.sessions;
    }
  }

  lemma StepKeepsUser(c: Caps, d: Desk, step: Step, who: string, p: nat)
    requires WithinUser(c, d, who, p) && Enabled(d, step) && |Of(Next(c, d, step).waiting, who)| <= p
    requires AccountedFor(d.registry, who) && (step.Check? && step.who == who ==> !step.admin)
    ensures WithinUser(c, Next(c, d, step), who, p)
  {
    match step
    case Check(_, _, _) => CheckKeepsUser(c, d, step, who, p);
    case Accept(id) => AcceptKeepsUser(c, d, id, who, p);
    case _ => LeavingKeepsUser(c, d, step, who, p);
  }

  /** The same for the cap on one identity, in a run in which the counts stay right. */
  lemma {:induction false} UserIsBounded(c: Caps, d: Desk, steps: seq<Step>, who: string, p: nat, d': Desk)
    requires WithinUser(c, d, who, p) && PeakOf(c, d, steps, who) <= p && After(c, d, steps) == Some(d')
    requires Accounted(d.registry) && Orderly(c, d, steps) && Ordinary(steps, who)
    ensures |Of(d'.registry.sessions, who)| + |Of(d'.waiting, who)| <= c.perUser + p - 1
    decreases |steps|
  {
    if steps != [] {
      var next := Next(c, d, steps[0]);
      assert AccountedFor(d.registry, who);
      StepKeepsUser(c, d, steps[0], who, p);
      StepKeepsAccounting(c, d, steps[0]);
      UserIsBounded(c, next, steps[1..], who, p, d');
    }
  }

  lemma {:induction false} PeakOfIsWithinPeak(c: Caps, d: Desk, steps: seq<Step>, who: string)
    ensures PeakOf(c, d, steps, who) <= Peak(c, d, steps)
    decreases |steps|
  {
    var others := d.waiting.Keys - Of(d.waiting, who);
    assert d.waiting.Keys == Of(d.waiting, who) + others;
    if steps != [] && Enabled(d, steps[0]) {
      PeakOfIsWithinPeak(c, Next(c, d, steps[0]), steps[1..], who);
    }
  }

  /** From an empty registry on, when each registration follows its check with no other request in between:
      both caps hold, the second for every identity that is no administrator, as long as the counts stay right. */
  lemma CapsHoldWithoutOverlap(c: Caps, steps: seq<Step>, d: Desk, who: string)
    requires c.total >= 0 && c.perUser >= 0 && After(c, EMPTY, steps) == Some(d) && Peak(c, EMPTY, steps) <= 1
    ensures |d.registry.sessions.Keys| <= c.total
    ensures Orderly(c, EMPTY, steps) && Ordinary(steps, who) ==>
              |Of(d.registry.sessions, who)| <= c.perUser && Count(d.registry, who) == |Of(d.registry.sessions, who)|
  {
    TotalIsBounded(c, EMPTY, steps, 1, d);
    if Orderly(c, EMPTY, steps) && Ordinary(steps, who) {
      PeakOfIsWithinPeak(c, EMPTY, steps, who);
      UserIsBounded(c, EMPTY, steps, who, 1, d);
      OrderlyEndsAccounted(c, EMPTY, steps, d);
      assert AccountedFor(d.registry, who);
    }
  }

  lemma {:induction false} OrderlyEndsAccounted(c: Caps, d: Desk, steps: seq<Step>, d': Desk)
    requires Accounted(d.registry) && Orderly(c, d, steps) && After(c, d, steps) == Some(d')
    ensures Accounted(d'.registry)
    decreases |steps|
  {
    if steps != [] {
      StepKeepsAccounting(c, d, steps[0]);
      OrderlyEndsAccounted(c, Next(c, d, steps[0]), steps[1..], d');
    }
  }

  lemma AfterCons(c: Caps, d: Desk, step: Step, rest: seq<Step>)
    requires Enabled(d, step)
    ensures After(c, d, [step] + rest) == After(c, Next(c, d, step), rest)
    ensures Peak(c, d, [step] + rest) == Max(|d.waiting.Keys|, Peak(c, Next(c, d, step), rest))
  {
    assert ([step] + rest)[1..] == rest;
  }

  /** There is room for a request of the identity "". */
  predicate Room(c: Caps, d: Desk, admin: bool) {
    |d.registry.sessions.Keys| < c.total && (admin || Count(d.registry, "") < c.perUser)
  }

  /** A run of one identity, that opens sessions only. */
  predicate Opening(steps: seq<Step>, admin: bool) {
    forall i :: 0 <= i < |steps| ==> match steps[i]
      case Check(_, who, a) => who == "" && a == admin
      case Accept(_) => true
      case _ => false
  }

  /** Requests that all pass their check before the first of them is registered. */
  lemma {:induction false} Rush(c: Caps, d: Desk, first: Id, checks: nat, admin: bool)
    returns (steps: seq<Step>, d': Desk)
    requires forall id :: id in d.registry.sessions || id in d.waiting ==> id < first
    requires Room(c, d, admin)
    requires d.waiting.Keys !! d.registry.sessions.Keys
    ensures After(c, d, steps) == Some(d') && Opening(steps, admin)
    ensures |d'.registry.sessions.Keys| == |d.registry.sessions.Keys| + |d.waiting.Keys| + checks
    ensures Peak(c, d, steps) == |d.waiting.Keys| + checks
    decreases checks
  {
    if checks == 0 {
      steps, d' := Drain(c, d, admin);
    } else {
      var step := Check(first, "", admin);
      KeysAdded(d.waiting, first, "");
      steps, d' := Rush(c, Next(c, d, step), first + 1, checks - 1, admin);
      AfterCons(c, d, step, steps);
      steps := [step] + steps;
    }
  }

  lemma {:induction false} Drain(c: Caps, d: Desk, admin: bool) returns (steps: seq<Step>, d': Desk)
    requires d.waiting.Keys !! d.registry.sessions.Keys
    ensures After(c, d, steps) == Some(d') && Opening(steps, admin)
    ensures |d'.registry.sessions.Keys| == |d.registry.sessions.Keys| + |d.waiting.Keys|
    ensures Peak(c, d, steps) == |d.waiting.Keys|
    decreases |d.waiting.Keys|
  {
    if d.waiting.Keys == {} {
      steps, d' := [], d;
    } else {
      var id :| id in d.waiting.Keys;
      KeysAdded(d.registry.sessions, id, d.waiting[id]);
      KeysRemoved(d.waiting, id);
      steps, d' := Drain(c, Next(c, d, Accept(id)), admin);
      AfterCons(c, d, Accept(id), steps);
      steps := [Accept(id)] + steps;
    }
  }

  lemma {:induction false} Fill(c: Caps, d: Desk, first: Id, n: nat, rush: nat, admin: bool)
    returns (steps: seq<Step>, d': Desk)
    requires forall id :: id in d.registry.sessions ==> id < first
    requires |d.registry.sessions.Keys| + n < c.total && d.waiting == map[] && rush > 0
    requires admin || Count(d.registry, "") + n < c.perUser
    ensures After(c, d, steps) == Some(d') && Opening(steps, admin)
    ensures |d'.registry.sessions.Keys| == |d.registry.sessions.Keys| + n + rush
    ensures Peak(c, d, steps) == rush
    decreases n
  {
    if n == 0 {
      steps, d' := Rush(c, d, first, rush, admin);
    } else {
      var check := Check(first, "", admin);
      var mid := Next(c, d, check);
      assert mid.waiting == map[first := ""] && mid.waiting.Keys == {first};
      KeysAdded(d.registry.sessions, first, "");
      var next := Next(c, mid, Accept(first));
      assert next.waiting == map[];
      steps, d' := Fill(c, next, first + 1, n - 1, rush, admin);
      AfterCons(c, mid, Accept(first), steps);
      AfterCons(c, d, check, [Accept(first)] + steps);
      steps := [check] + ([Accept(first)] + steps);
    }
  }

  /** The bound is met: with p requests waiting at once the server can end up p - 1 sessions over its cap. */
  lemma OvershootIsReached(c: Caps, p: nat) returns (steps: seq<Step>, d: Desk)
    requires c.total > 0 && p > 0
    ensures After(c, EMPTY, steps) == Some(d) && Peak(c, EMPTY, steps) == p
    ensures |d.registry.sessions.Keys| == c.total + p - 1
  {
    steps, d := Fill(c, EMPTY, 0, c.total - 1, p, true);
  }

  predicate OneIdentity(d: Desk) {
    && (forall id :: id in d.registry.sessions ==> d.registry.sessions[id] == "")
    && (forall id :: id in d.waiting ==> d.waiting[id] == "")
  }

  lemma {:induction false} OpeningIsOfOne(c: Caps, d: Desk, steps: seq<Step>, admin: bool, d': Desk)
    requires OneIdentity(d) && Opening(steps, admin) && After(c, d, steps) == Some(d')
    ensures OneIdentity(d') && Orderly(c, d, steps) && PeakOf(c, d, steps, "") == Peak(c, d, steps)
    decreases |steps|
  {
    assert Of(d.waiting, "") == d.waiting.Keys;
    if steps != [] {
      OpeningIsOfOne(c, Next(c, d, steps[0]), steps[1..], admin, d');
    }
  }

  /** So is the bound of one identity that is no administrator, in a run in which the counts stay right. */
  lemma UserOvershootIsReached(c: Caps, p: nat) returns (steps: seq<Step>, d: Desk)
    requires 0 < c.perUser <= c.total && p > 0
    ensures After(c, EMPTY, steps) == Some(d) && PeakOf(c, EMPTY, steps, "") == p
    ensures Orderly(c, EMPTY, steps) && Ordinary(steps, "")
    ensures |Of(d.registry.sessions, "")| == c.perUser + p - 1
  {
    steps, d := Fill(c, EMPTY, 0, c.perUser - 1, p, false);
    OpeningIsOfOne(c, EMPTY, steps, false, d);
    assert Of(d.registry.sessions, "") == d.registry.sessions.Keys;
  }

  lemma {:induction false} OrderlyConcat(c: Caps, d: Desk, first: seq<Step>, rest: seq<Step>, d': Desk)
    requires After(c, d, first) == Some(d')
    ensures Orderly(c, d, first + rest) <==> Orderly(c, d, first) && Orderly(c, d', rest)
    decreases |first|
  {
    if first == [] {
      assert first + rest == rest;
    } else {
      assert (first + rest)[0] == first[0] && (first + rest)[1..] == first[1..] + rest;
      OrderlyConcat(c, Next(c, d, first[0]), first[1..], rest, d');
    }
  }

  /** With a cap of one, as shipped, and no overlap, unregistering a session twice in a row is harmless: its
      identity has no other session then, and the run stays orderly. */
  lemma DoubleUnregisterIsHarmlessAtCapOne(c: Caps, steps: seq<Step>, d: Desk, who: string, x: Id)
    requires c.total >= 0 && c.perUser == 1 && After(c, EMPTY, steps) == Some(d) && Peak(c, EMPTY, steps) <= 1
    requires Orderly(c, EMPTY, steps) && Ordinary(steps, who) && x in d.registry.sessions &&
             d.registry.sessions[x] == who
    ensures Orderly(c, EMPTY, steps + [Unregister(x, who), Unregister(x, who)])
    ensures Accounted(Unregistered(Unregistered(d.registry, x, who), x, who))
  {
    CapsHoldWithoutOverlap(c, steps, d, who);
    OrderlyEndsAccounted(c, EMPTY, steps, d);
    LastOneTwice(c, d, who, x);
    OrderlyConcat(c, EMPTY, steps, [Unregister(x, who), Unregister(x, who)], d);
  }

  lemma LastOneTwice(c: Caps, d: Desk, who: string, x: Id)
    requires Accounted(d.registry) && x in d.registry.sessions && d.registry.sessions[x] == who
    requires |Of(d.registry.sessions, who)| <= 1
    ensures Orderly(c, d, [Unregister(x, who), Unregister(x, who)])
    ensures Accounted(Unregistered(Unregistered(d.registry, x, who), x, who))
  {
    var r := Unregistered(d.registry, x, who);
    assert x in Of(d.registry.sessions, who);
    OfRemoved(d.registry.sessions, x, who);
    assert r.sessions == d.registry.sessions - {x} && Of(r.sessions, who) == {};
    UnregisterOfLive(d.registry, x, who);
    UnregisterIsExactWhen(r, x, who);
  }

  /** A session unregistered twice frees a place that is still taken: from any state in which an identity is
      one below its cap, each check being followed by its registration, it gets one session too many. */
  lemma DoubleUnregisterLiftsTheCap(c: Caps, r: Registry, who: string, x: Id, y: Id, z: Id)
    returns (steps: seq<Step>, d: Desk)
    requires Accounted(r) && c.perUser >= 2 && |Of(r.sessions, who)| == c.perUser - 1
    requires |r.sessions.Keys| + 2 <= c.total
    requires x !in r.sessions && y !in r.sessions && z !in r.sessions && y != z
    ensures steps == [Check(x, who, false), Accept(x)] + [Unregister(x, who), Unregister(x, who)]
                     + ([Check(y, who, false), Accept(y)] + [Check(z, who, false), Accept(z)])
    ensures After(c, Desk(r, map[]), steps) == Some(d) && |Of(d.registry.sessions, who)| == c.perUser + 1
  {
    assert AccountedFor(r, who);
    var r1, open := Opens(c, r, x, who);
    var r3, twice := UnregistersTwice(c, r, x, who);
    KeysAdded(r.sessions, y, who);
    var r4, second := Opens(c, r3, y, who);
    var r5, third := Opens(c, r4, z, who);
    AfterConcat(c, Desk(r3, map[]), second, third);
    AfterConcat(c, Desk(r1, map[]), twice, second + third);
    AfterConcat(c, Desk(r, map[]), open, twice + (second + third));
    steps, d := open + twice + (second + third), Desk(r5, map[]);
    assert steps == open + (twice + (second + third));
    OfAdded(r3.sessions, y, who, who);
    OfAdded(r4.sessions, z, who, who);
  }

  lemma UnregistersTwice(c: Caps, r: Registry, id: Id, who: string) returns (r': Registry, steps: seq<Step>)
    requires id !in r.sessions && Count(r, who) > 0
    ensures steps == [Unregister(id, who), Unregister(id, who)]
    ensures After(c, Desk(Registered(r, id, who), map[]), steps) == Some(Desk(r', map[]))
    ensures r'.sessions == r.sessions && Count(r', who) == Count(r, who) - 1
  {
    var r1 := Registered(r, id, who);
    var r2 := Unregistered(r1, id, who);
    r' := Unregistered(r2, id, who);
    assert r2.sessions == r.sessions && r'.sessions == r.sessions;
    AfterCons(c, Desk(r2, map[]), Unregister(id, who), []);
    AfterCons(c, Desk(r1, map[]), Unregister(id, who), [Unregister(id, who)]);
    steps := [Unregister(id, who), Unregister(id, who)];
    assert steps == [Unregister(id, who)] + [Unregister(id, who)];
    assert [Unregister(id, who)] + [] == [Unregister(id, who)];
  }

  /** A check that passes, and the registration right after it. */
  lemma Opens(c: Caps, r: Registry, id: Id, who: string) returns (r': Registry, steps: seq<Step>)
    requires |r.sessions.Keys| < c.total && Count(r, who) < c.perUser && id !in r.sessions
    ensures r' == Registered(r, id, who) && steps == [Check(id, who, false), Accept(id)]
    ensures After(c, Desk(r, map[]), steps) == Some(Desk(r', map[]))
  {
    r' := Registered(r, id, who);
    var d := Desk(r, map[]);
    var mid := Next(c, d, Check(id, who, false));
    assert mid.waiting == map[id := who];
    assert mid.waiting - {id} == map[];
    AfterCons(c, mid, Accept(id), []);
    AfterCons(c, d, Check(id, who, false), [Accept(id)]);
    steps := [Check(id, who, false), Accept(id)];
    assert [Accept(id)] + [] == [Accept(id)];
    assert steps == [Check(id, who, false)] + [Accept(id)];
  }

  lemma {:induction false} AfterConcat(c: Caps, d: Desk, first: seq<Step>, rest: seq<Step>)
    requires After(c, d, first).Some?
    ensures After(c, d, first + rest) == After(c, After(c, d, first).value, rest)
    decreases |first|
  {
    if first == [] {
      assert first + rest == rest;
    } else {
      assert (first + rest)[0] == first[0] && (first + rest)[1..] == first[1..] + rest;
      AfterConcat(c, Next(c, d, first[0]), first[1..], rest);
    }
  }
}
