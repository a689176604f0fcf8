/** Abuse scoring in memory, app/abuse.py: the verdict on one run, and the rolling score per identity. */
module Abuse {
  import opened Text
  import opened Encodings

  datatype RunOutcome = RunOutcome(timedOut: bool, stderr: string, error: string)
  datatype Verdict = Verdict(suspicious: bool, flags: seq<string>, weight: nat)
  datatype Event = Event(ts: real, weight: nat, flags: seq<string>)
  datatype Summary = Summary(score: nat, events: nat, flags: map<string, nat>, quarantined: bool)

  type Tracker = map<string, seq<Event>>

  const NETWORK_MARKERS: seq<string> := [
    "network is unreachable", "enetunreach", "errno 101", "getaddrinfo", "no route to host",
    "econnrefused", "connection refused", "temporary failure in name resolution"]
  const MEMORY_MARKERS: seq<string> := [
    "memoryerror", "cannot allocate memory", "std::bad_alloc", "out of memory", "enomem"]

  function WeightOf(flag: string): nat {
    if flag == "timeout" then 2 else if flag == "network_probe" then 3 else if flag == "memory_abuse" then 2 else 1
  }

  function WeightSum(flags: seq<string>): nat {
    if flags == [] then 0 else WeightOf(flags[0]) + WeightSum(flags[1..])
  }

  function Optional(b: bool, flag: string): seq<string> { if b then [flag] else [] }

  function FlagsFor(timedOut: bool, network: bool, memory: bool, error: bool): seq<string> {
    Optional(timedOut, "timeout") + Optional(network, "network_probe") + Optional(memory, "memory_abuse") +
    Optional(error, "orchestration")
  }

  function Classify(r: RunOutcome): Verdict {
    var stderr := Lower(r.stderr);
    var flags := FlagsFor(r.timedOut, ContainsAny(stderr, NETWORK_MARKERS), ContainsAny(stderr, MEMORY_MARKERS),
        r.error != "");
    Verdict(flags != [], flags, WeightSum(flags))
  }

  function Bit(b: bool): nat { if b then 1 else 0 }

  /** Each symptom brings its own flag, once, and its own weight; nothing else does. The symptoms of network and
      memory abuse are texts that stand somewhere in the lower-cased stderr. */
  lemma VerdictTellsSymptoms(r: RunOutcome)
    ensures var v := Classify(r);
            var network := AnyStands(Lower(r.stderr), [
                "network is unreachable", "enetunreach", "errno 101", "getaddrinfo", "no route to host",
                "econnrefused", "connection refused", "temporary failure in name resolution"]);
            var memory := AnyStands(Lower(r.stderr), [
                "memoryerror", "cannot allocate memory", "std::bad_alloc", "out of memory", "enomem"]);
            && v.suspicious == (r.timedOut || network || memory || r.error != "")
            && Occurrences(v.flags, "timeout") == Bit(r.timedOut)
            && Occurrences(v.flags, "network_probe") == Bit(network)
            && Occurrences(v.flags, "memory_abuse") == Bit(memory)
            && Occurrences(v.flags, "orchestration") == Bit(r.error != "")
            && |v.flags| == Bit(r.timedOut) + Bit(network) + Bit(memory) + Bit(r.error != "")
            && v.weight == 2 * Bit(r.timedOut) + 3 * Bit(network) + 2 * Bit(memory) + Bit(r.error != "")
  {
    var stderr := Lower(r.stderr);
    var network, memory := ContainsAny(stderr, NETWORK_MARKERS), ContainsAny(stderr, MEMORY_MARKERS);
    ContainsAnyExactly(stderr, NETWORK_MARKERS);
    ContainsAnyExactly(stderr, MEMORY_MARKERS);
    DistinctFlags();
    FlagsCount(r.timedOut, network, memory, r.error != "", "timeout");
    FlagsCount(r.timedOut, network, memory, r.error != "", "network_probe");
    FlagsCount(r.timedOut, network, memory, r.error != "", "memory_abuse");
    FlagsCount(r.timedOut, network, memory, r.error != "", "orchestration");
  }

  lemma OptionalCounts(b: bool, flag: string, f: string)
    ensures Occurrences(Optional(b, flag), f) == Bit(b && f == flag)
    ensures WeightSum(Optional(b, flag)) == WeightOf(flag) * Bit(b) && |Optional(b, flag)| == Bit(b)
  {
  }

  lemma FlagsCount(timedOut: bool, network: bool, memory: bool, error: bool, f: string)
    ensures var flags := FlagsFor(timedOut, network, memory, error);
            && Occurrences(flags, f) == Bit(timedOut && f == "timeout") + Bit(network && f == "network_probe")
                                        + Bit(memory && f == "memory_abuse") + Bit(error && f == "orchestration")
            && |flags| == Bit(timedOut) + Bit(network) + Bit(memory) + Bit(error)
            && WeightSum(flags) == 2 * Bit(timedOut) + 3 * Bit(network) + 2 * Bit(memory) + Bit(error)
  {
    var a, b := Optional(timedOut, "timeout"), Optional(network, "network_probe");
    var c, d := Optional(memory, "memory_abuse"), Optional(error, "orchestration");
    OptionalCounts(timedOut, "timeout", f);
    OptionalCounts(network, "network_probe", f);
    OptionalCounts(memory, "memory_abuse", f);
    OptionalCounts(error, "orchestration", f);
    CountsAdd(a, b, f);
    CountsAdd(a + b, c, f);
    CountsAdd(a + b + c, d, f);
    assert FlagsFor(timedOut, network, memory, error) == a + b + c + d;
  }

  lemma DistinctFlags()
    ensures "timeout" != "network_probe" && "timeout" != "memory_abuse" && "timeout" != "orchestration"
    ensures "network_probe" != "memory_abuse" && "network_probe" != "orchestration" && "memory_abuse" != "orchestration"
  {
    assert "network_probe"[0] == 'n' && "orchestration"[0] == 'o';
  }

  lemma {:induction false} CountsAdd(a: seq<string>, b: seq<string>, f: string)
    ensures Occurrences(a + b, f) == Occurrences(a, f) + Occurrences(b, f)
    ensures WeightSum(a + b) == WeightSum(a) + WeightSum(b)
  {
    if a == [] {
      assert a + b == b;
    } else {
      CountsAdd(a[1..], b, f);
      assert (a + b)[1..] == a[1..] + b;
    }
  }

  lemma KnownFlagsSurvive(flags: seq<string>, weight: nat, token: string)
    requires forall i :: 0 <= i < |flags| ==> flags[i] in {"timeout", "network_probe", "memory_abuse", "orchestration"}
    ensures LoadFlags(SaveFlags(flags)) == flags && PythonFlags(Member(weight, flags, token)) == flags
  {
    forall i | 0 <= i < |flags| ensures flags[i] != "" && Free(flags[i], ',') && Free(flags[i], '|') {
      KnownFlagIsFree(flags[i]);
    }
    StoreRoundTrip(flags);
    FlagsRoundTrip(weight, flags, token);
  }

  lemma KnownFlagIsFree(flag: string)
    requires flag in {"timeout", "network_probe", "memory_abuse", "orchestration"}
    ensures flag != "" && Free(flag, ',') && Free(flag, '|')
  {
  }

  lemma FlagsAreKnown(timedOut: bool, network: bool, memory: bool, error: bool)
    ensures forall i :: 0 <= i < |FlagsFor(timedOut, network, memory, error)| ==>
              FlagsFor(timedOut, network, memory, error)[i] in
                {"timeout", "network_probe", "memory_abuse", "orchestration"}
  {
  }

  /** Whatever a run produced, its flags survive both flattenings, and suspicion shows in the weight. */
  lemma ClassifiedFlagsSurvive(r: RunOutcome, v: Verdict, token: string)
    requires v == Classify(r)
    ensures LoadFlags(SaveFlags(v.flags)) == v.flags
    ensures PythonFlags(Member(v.weight, v.flags, token)) == v.flags
    ensures v.suspicious <==> v.weight > 0
  {
    var stderr := Lower(r.stderr);
    FlagsAreKnown(r.timedOut, ContainsAny(stderr, NETWORK_MARKERS), ContainsAny(stderr, MEMORY_MARKERS), r.error != "");
    KnownFlagsSurvive(v.flags, v.weight, token);
  }

  // ---------------------------------------------------------------- the tracker

  function Window(t: Tracker, id: string): seq<Event> { if id in t then t[id] else [] }

  /** What the popleft loop leaves of a deque at time now. */
  function Live(w: seq<Event>, now: real, win: real): seq<Event> {
    if w == [] || now - w[0].ts < win then w else Live(w[1..], now, win)
  }

  function Score(w: seq<Event>): nat { if w == [] then 0 else w[0].weight + Score(w[1..]) }

  function Occurrences(flags: seq<string>, f: string): nat {
    if flags == [] then 0 else (if flags[0] == f then 1 else 0) + Occurrences(flags[1..], f)
  }

  function FlagCount(w: seq<Event>, f: string): nat {
    if w == [] then 0 else Occurrences(w[0].flags, f) + FlagCount(w[1..], f)
  }

  function Quarantined(threshold: int, score: nat): bool { threshold > 0 && score >= threshold }

  function FlagSet(w: seq<Event>): set<string> {
    if w == [] then {} else (set i | 0 <= i < |w[0].flags| :: w[0].flags[i]) + FlagSet(w[1..])
  }

  /** What the report says of a deque: its score, its length, how often each flag occurs in it, and
      whether it quarantines. */
  function SummaryOf(w: seq<Event>, threshold: int): Summary {
    Summary(Score(w), |w|, map f | f in FlagSet(w) :: FlagCount(w, f), Quarantined(threshold, Score(w)))
  }

  lemma {:induction false} OccursIfCounted(flags: seq<string>, f: string)
    ensures f in flags <==> Occurrences(flags, f) > 0
  {
    if flags != [] {
      OccursIfCounted(flags[1..], f);
    }
  }

  lemma {:induction false} FlagSetIsCounted(w: seq<Event>, f: string)
    ensures f in FlagSet(w) <==> FlagCount(w, f) > 0
  {
    if w != [] {
      OccursIfCounted(w[0].flags, f);
      FlagSetIsCounted(w[1..], f);
    }
  }

  function PruneStep(t: Tracker, id: string, now: real, win: real): Tracker {
    var w := Live(Window(t, id), now, win);
    if w == [] then t - {id} else t[id := w]
  }

  function RecordStep(t: Tracker, id: string, v: Verdict, now: real, win: real): (Tracker, nat) {
    var t' := PruneStep(t, id, now, win);
    var t'' := if v.suspicious then t'[id := Window(t', id) + [Event(now, v.weight, v.flags)]] else t';
    (t'', Score(Window(t'', id)))
  }

  function PruneAll(t: Tracker, now: real, win: real): Tracker {
    map id | id in t && Live(t[id], now, win) != [] :: Live(t[id], now, win)
  }

  /** t' is t with every deque pruned at now, and the empty ones gone. */
  ghost predicate AllPruned(t: Tracker, t': Tracker, now: real, win: real) {
    && (forall id :: Window(t', id) == Live(Window(t, id), now, win))
    && (forall id :: id in t' ==> t'[id] != [])
  }

  /** What is left of a deque after the report's pruning, and then is_quarantined's at its own reading. */
  function LeftBy(w: seq<Event>, now: real, later: real, win: real, threshold: int): seq<Event> {
    if threshold > 0 then Live(Live(w, now, win), later, win) else Live(w, now, win)
  }

  function ReportOne(t: Tracker, id: string, now: real, later: real, win: real, threshold: int): Tracker {
    var t' := PruneStep(t, id, now, win);
    if threshold > 0 then PruneStep(t', id, later, win) else t'
  }

  /** Half-way through a report: the identities still to do are untouched, the others pruned. */
  ghost predicate HalfReported(t: Tracker, t': Tracker, todo: set<string>, now: real, later: string -> real,
      win: real, threshold: int) {
    && todo <= t'.Keys
    && (forall id :: Window(t', id) ==
          if id in todo then Window(t, id) else LeftBy(Window(t, id), now, later(id), win, threshold))
    && (forall id :: id in t' && id !in todo ==> t'[id] != [])
  }

  lemma ReportNext(t: Tracker, t': Tracker, todo: set<string>, id: string, now: real, later: string -> real,
      win: real, threshold: int)
    requires HalfReported(t, t', todo, now, later, win, threshold) && id in todo
    ensures HalfReported(t, ReportOne(t', id, now, later(id), win, threshold), todo - {id}, now, later, win, threshold)
  {
  }

  /** A line of the report of a deque pruned at one reading, its quarantine read at a later one. */
  function SummaryLater(w: seq<Event>, threshold: int, later: real, win: real): Summary {
    SummaryOf(w, threshold).(quarantined := Quarantined(threshold, Score(Live(w, later, win))))
  }

  /** At a frozen clock the two readings are one. */
  lemma FrozenReport(w: seq<Event>, threshold: int, now: real, win: real)
    ensures LeftBy(w, now, now, win, threshold) == Live(w, now, win)
    ensures SummaryLater(Live(w, now, win), threshold, now, win) == SummaryOf(Live(w, now, win), threshold)
  {
    LiveIsLive(w, now, win);
  }

  class AbuseTracker {
    const threshold: int
    const window_s: real
    var events: Tracker

    constructor (threshold: int, window_s: real)
      ensures this.threshold == threshold && this.window_s == window_s && events == map[]
    {
      this.threshold, this.window_s := threshold, window_s;
      events := map[];
    }

    method Prune(id: string, now: real)
      modifies this
      ensures events == PruneStep(old(events), id, now, window_s)
    {
      if id !in events {
        assert events - {id} == events;
        return;
      }
      var w := events[id];
      while w != [] && now - w[0].ts >= window_s
        invariant Live(w, now, window_s) == Live(old(events)[id], now, window_s)
      {
        w := w[1..];
      }
      if w == [] {
        events := events - {id};
      } else {
        events := events[id := w];
      }
    }

    method Record(id: string, v: Verdict, now: real) returns (score: nat)
      modifies this
      ensures (events, score) == RecordStep(old(events), id, v, now, window_s)
    {
      Prune(id, now);
      if v.suspicious {
        events := events[id := (if id in events then events[id] else []) + [Event(now, v.weight, v.flags)]];
      }
      return Score(if id in events then events[id] else []);
    }

    method CurrentScore(id: string, now: real) returns (score: nat)
      modifies this
      ensures events == PruneStep(old(events), id, now, window_s)
      ensures score == Score(Live(Window(old(events), id), now, window_s))
    {
      Prune(id, now);
      return Score(if id in events then events[id] else []);
    }

    method IsQuarantined(id: string, now: real) returns (q: bool)
      modifies this
      ensures events == if threshold > 0 then PruneStep(old(events), id, now, window_s) else old(events)
      ensures q == Quarantined(threshold, Score(Live(Window(old(events), id), now, window_s)))
    {
      if threshold <= 0 {
        return false;
      }
      var score := CurrentScore(id, now);
      return score >= threshold;
    }

    /** One round of the report's loop, after its pruning; is_quarantined reads the clock again. */
    method Describe(id: string, later: real) returns (s: Summary)
      requires id in events
      modifies this
      ensures events == if threshold > 0 then PruneStep(old(events), id, later, window_s) else old(events)
      ensures s == SummaryLater(old(events)[id], threshold, later, window_s)
    {
      var flags := CountFlags(events[id]);
      CountsAreSummary(events[id], flags);
      var score := Score(events[id]);
      var n := |events[id]|;
      var q := IsQuarantined(id, later);
      s := Summary(score, n, flags, q);
    }

    /** now is what the report reads, later what is_quarantined reads for each identity. */
    method Report(now: real, later: string -> real) returns (out: map<string, Summary>)
      modifies this
      ensures forall id :: Window(events, id) == LeftBy(Window(old(events), id), now, later(id), window_s, threshold)
      ensures forall id :: id in events ==> events[id] != []
      ensures forall id :: id in out <==> Live(Window(old(events), id), now, window_s) != []
      ensures forall id :: id in out ==>
                out[id] == SummaryLater(Live(Window(old(events), id), now, window_s), threshold, later(id), window_s)
    {
      out := map[];
      var todo := events.Keys;
      while todo != {}
        invariant HalfReported(old(events), events, todo, now, later, window_s, threshold)
        invariant forall id :: id in out <==> id !in todo && Live(Window(old(events), id), now, window_s) != []
        invariant forall id :: id in out ==>
              out[id] == SummaryLater(Live(Window(old(events), id), now, window_s), threshold, later(id), window_s)
        decreases |todo|
      {
        var id :| id in todo;
        ghost var before := events;
        assert Window(before, id) == Window(old(events), id);
        ReportNext(old(events), before, todo, id, now, later, window_s, threshold);
        todo := todo - {id};
        Prune(id, now);
        if id in events {
          var s := Describe(id, later(id));
          out := out[id := s];
        }
        assert events == ReportOne(before, id, now, later(id), window_s, threshold);
      }
    }
  }

  lemma {:induction false} LiveIsLive(w: seq<Event>, now: real, win: real)
    ensures Live(Live(w, now, win), now, win) == Live(w, now, win)
  {
    if w != [] && now - w[0].ts >= win {
      LiveIsLive(w[1..], now, win);
    }
  }

  lemma CountsAreSummary(w: seq<Event>, counts: map<string, nat>)
    requires forall f :: if f in counts then counts[f] == FlagCount(w, f) > 0 else FlagCount(w, f) == 0
    ensures counts == map f | f in FlagSet(w) :: FlagCount(w, f)
  {
    forall f ensures f in counts <==> f in FlagSet(w) {
      FlagSetIsCounted(w, f);
    }
  }

  function Tally(m: map<string, nat>, f: string): nat { if f in m then m[f] else 0 }

  /** The inner loop of report. */
  method AddFlags(before: map<string, nat>, flags: seq<string>) returns (counts: map<string, nat>)
    requires forall f :: f in before ==> before[f] > 0
    ensures forall f :: f in counts ==> counts[f] > 0
    ensures forall f :: Tally(counts, f) == Tally(before, f) + Occurrences(flags, f)
  {
    counts := before;
    var j := 0;
    while j < |flags|
      invariant 0 <= j <= |flags|
      invariant forall f :: f in counts ==> counts[f] > 0
      invariant forall f :: Tally(counts, f) + Occurrences(flags[j..], f) == Tally(before, f) + Occurrences(flags, f)
    {
      counts := counts[flags[j] := Tally(counts, flags[j]) + 1];
      j := j + 1;
    }
  }

  /** The outer loop of report. */
  method CountFlags(w: seq<Event>) returns (counts: map<string, nat>)
    ensures forall f :: if f in counts then counts[f] == FlagCount(w, f) > 0 else FlagCount(w, f) == 0
  {
    counts := map[];
    var i := 0;
    while i < |w|
      invariant 0 <= i <= |w|
      invariant forall f :: f in counts ==> counts[f] > 0
      invariant forall f :: Tally(counts, f) + FlagCount(w[i..], f) == FlagCount(w, f)
    {
      counts := AddFlags(counts, w[i].flags);
      i := i + 1;
    }
  }

  // ---------------------------------------------------------------- runs

  datatype Op = RecordRun(id: string, v: Verdict, now: real) | ReadScore(id: string, now: real) | ReadReport(now: real)

  function Apply(t: Tracker, op: Op, win: real): Tracker {
    match op
    case RecordRun(id, v, now) => RecordStep(t, id, v, now, win).0
    case ReadScore(id, now) => PruneStep(t, id, now, win)
    case ReadReport(now) => PruneAll(t, now, win)
  }

  function Run(ops: seq<Op>, win: real): Tracker {
    if ops == [] then map[] else Apply(Run(ops[..|ops| - 1], win), ops[|ops| - 1], win)
  }

  function NewEvent(op: Op, id: string): seq<Event> {
    if op.RecordRun? && op.id == id && op.v.suspicious then [Event(op.now, op.v.weight, op.v.flags)] else []
  }

  /** Every suspicious verdict ever recorded for id, none of them dropped. */
  function History(ops: seq<Op>, id: string): seq<Event> {
    if ops == [] then [] else History(ops[..|ops| - 1], id) + NewEvent(ops[|ops| - 1], id)
  }

  /** The events of h recorded less than win before now. */
  function Recent(h: seq<Event>, now: real, win: real): seq<Event> {
    if h == [] then []
    else (if now - h[0].ts < win then [h[0]] else []) + Recent(h[1..], now, win)
  }

  ghost predicate Clocked(ops: seq<Op>, now: real) {
    && (forall i, j :: 0 <= i < j < |ops| ==> ops[i].now <= ops[j].now)
    && (forall i :: 0 <= i < |ops| ==> ops[i].now <= now)
  }

  ghost predicate UpTo(w: seq<Event>, t: real) {
    && (forall i, j :: 0 <= i < j < |w| ==> w[i].ts <= w[j].ts)
    && (forall i :: 0 <= i < |w| ==> w[i].ts <= t)
  }

  lemma {:induction false} AllRecent(h: seq<Event>, now: real, win: real)
    requires forall i :: 0 <= i < |h| ==> now - h[i].ts < win
    ensures Recent(h, now, win) == h
  {
    if h != [] {
      AllRecent(h[1..], now, win);
    }
  }

  lemma {:induction false} LiveIsRecent(w: seq<Event>, t: real, now: real, win: real)
    requires UpTo(w, t)
    ensures Live(w, now, win) == Recent(w, now, win) && UpTo(Live(w, now, win), t)
  {
    if w != [] {
      if now - w[0].ts < win {
        AllRecent(w, now, win);
      } else {
        LiveIsRecent(w[1..], t, now, win);
        assert [] + Recent(w[1..], now, win) == Recent(w[1..], now, win);
      }
    }
  }

  lemma {:induction false} RecentOfSum(h: seq<Event>, g: seq<Event>, now: real, win: real)
    ensures Recent(h + g, now, win) == Recent(h, now, win) + Recent(g, now, win)
  {
    if h == [] {
      assert h + g == g;
    } else {
      RecentOfSum(h[1..], g, now, win);
      assert (h + g)[1..] == h[1..] + g && (h + g)[0] == h[0];
      var a := if now - h[0].ts < win then [h[0]] else [];
      assert a + (Recent(h[1..], now, win) + Recent(g, now, win)) ==
          (a + Recent(h[1..], now, win)) + Recent(g, now, win);
    }
  }

  lemma {:induction false} RecentOfRecent(h: seq<Event>, t: real, now: real, win: real)
    requires t <= now
    ensures Recent(Recent(h, t, win), now, win) == Recent(h, now, win)
  {
    if h != [] {
      RecentOfRecent(h[1..], t, now, win);
      RecentOfSum(if t - h[0].ts < win then [h[0]] else [], Recent(h[1..], t, win), now, win);
    }
  }

  lemma WindowAfter(t: Tracker, op: Op, id: string, win: real)
    ensures var w, w' := Window(t, id), Window(Apply(t, op, win), id);
            if op.ReadReport? || op.id == id then w' == Live(w, op.now, win) + NewEvent(op, id) else w' == w
    ensures op.RecordRun? ==>
              RecordStep(t, op.id, op.v, op.now, win).1 ==
                Score(Live(Window(t, op.id), op.now, win) + NewEvent(op, op.id))
  {
    assert Live(Window(t, id), op.now, win) + [] == Live(Window(t, id), op.now, win);
    if op.RecordRun? {
      assert Live(Window(t, op.id), op.now, win) + [] == Live(Window(t, op.id), op.now, win);
    }
  }

  lemma UpToGrows(v: seq<Event>, op: Op, id: string, now: real)
    requires UpTo(v, op.now) && op.now <= now
    ensures UpTo(v + NewEvent(op, id), now)
  {
  }

  lemma RecentOfNext(v: seq<Event>, h: seq<Event>, e: seq<Event>, t: real, now: real, win: real)
    requires t <= now && v == Recent(h, t, win)
    ensures Recent(v + e, now, win) == Recent(h + e, now, win)
  {
    RecentOfSum(v, e, now, win);
    RecentOfSum(h, e, now, win);
    RecentOfRecent(h, t, now, win);
  }

  lemma PruneAgrees(w: seq<Event>, h: seq<Event>, op: Op, id: string, now: real, win: real)
    requires UpTo(w, op.now) && op.now <= now && Live(w, op.now, win) == Recent(h, op.now, win)
    ensures var w' := Live(w, op.now, win) + NewEvent(op, id);
            UpTo(w', now) && Live(w', now, win) == Recent(h + NewEvent(op, id), now, win)
  {
    var v, e := Live(w, op.now, win), NewEvent(op, id);
    LiveIsRecent(w, op.now, op.now, win);
    UpToGrows(v, op, id, now);
    LiveIsRecent(v + e, now, now, win);
    RecentOfNext(v, h, e, op.now, now, win);
  }

  lemma ClockedPrefix(ops: seq<Op>, now: real)
    requires ops != [] && Clocked(ops, now)
    ensures Clocked(ops[..|ops| - 1], now)
    ensures ops[|ops| - 1].now <= now && Clocked(ops[..|ops| - 1], ops[|ops| - 1].now)
  {
  }

  /** After any run, what pruning leaves of a deque at any later time is exactly the suspicious verdicts
      recorded less than a window before. */
  lemma {:induction false} WindowIsRecentHistory(ops: seq<Op>, id: string, now: real, win: real)
    requires Clocked(ops, now)
    ensures UpTo(Window(Run(ops, win), id), now)
    ensures Live(Window(Run(ops, win), id), now, win) == Recent(History(ops, id), now, win)
  {
    if ops != [] {
      var p, op := ops[..|ops| - 1], ops[|ops| - 1];
      var w, h := Window(Run(p, win), id), History(p, id);
      ClockedPrefix(ops, now);
      WindowAfter(Run(p, win), op, id, win);
      if op.ReadReport? || op.id == id {
        WindowIsRecentHistory(p, id, op.now, win);
        PruneAgrees(w, h, op, id, now, win);
      } else {
        WindowIsRecentHistory(p, id, now, win);
        assert h + [] == h;
      }
    }
  }

  /** score(id): the weight of the suspicious verdicts of the last window. record(id): the same plus the
      verdict being recorded. */
  lemma ScoreIsRecentWeight(ops: seq<Op>, id: string, now: real, win: real, v: Verdict)
    requires Clocked(ops, now)
    ensures Score(Live(Window(Run(ops, win), id), now, win)) == Score(Recent(History(ops, id), now, win))
    ensures RecordStep(Run(ops, win), id, v, now, win).1 ==
            Score(Recent(History(ops, id), now, win)) + if v.suspicious then v.weight else 0
  {
    WindowIsRecentHistory(ops, id, now, win);
    WindowAfter(Run(ops, win), RecordRun(id, v, now), id, win);
    ScoreOfSum(Live(Window(Run(ops, win), id), now, win), NewEvent(RecordRun(id, v, now), id));
  }

  lemma {:induction false} ScoreOfSum(a: seq<Event>, b: seq<Event>)
    ensures Score(a + b) == Score(a) + Score(b)
  {
    if a == [] {
      assert a + b == b;
    } else {
      ScoreOfSum(a[1..], b);
      assert (a + b)[1..] == a[1..] + b;
    }
  }

  lemma {:induction false} RecentFades(h: seq<Event>, t: real, now: real, win: real)
    requires t <= now
    ensures Score(Recent(h, now, win)) <= Score(Recent(h, t, win))
    ensures (forall i :: 0 <= i < |h| ==> h[i].ts + win <= now) ==> Recent(h, now, win) == []
  {
    if h != [] {
      RecentFades(h[1..], t, now, win);
      ScoreOfSum(if now - h[0].ts < win then [h[0]] else [], Recent(h[1..], now, win));
      ScoreOfSum(if t - h[0].ts < win then [h[0]] else [], Recent(h[1..], t, win));
      assert forall i :: 0 <= i < |h[1..]| ==> h[1..][i] == h[i + 1];
    }
  }

  lemma {:induction false} HistoryStays(ops: seq<Op>, more: seq<Op>, id: string)
    requires forall i :: 0 <= i < |more| ==> NewEvent(more[i], id) == []
    ensures History(ops + more, id) == History(ops, id)
  {
    if more == [] {
      assert ops + more == ops;
    } else {
      var p := more[..|more| - 1];
      HistoryStays(ops, p, id);
      assert (ops + more)[..|ops + more| - 1] == ops + p && (ops + more)[|ops + more| - 1] == more[|more| - 1];
      assert History(ops + p, id) + [] == History(ops + p, id);
    }
  }

  lemma {:induction false} HistoryTimes(ops: seq<Op>, id: string, t: real)
    requires forall i :: 0 <= i < |ops| && NewEvent(ops[i], id) != [] ==> ops[i].now <= t
    ensures forall i :: 0 <= i < |History(ops, id)| ==> History(ops, id)[i].ts <= t
  {
    if ops != [] {
      HistoryTimes(ops[..|ops| - 1], id, t);
    }
  }

  /** While a run goes on without a new suspicious verdict on id, the score of id never rises; it is 0, and the
      quarantine lifted, once a window has passed since the last one. */
  lemma QuarantineLifts(ops: seq<Op>, more: seq<Op>, id: string, t: real, now: real, win: real, threshold: int)
    requires Clocked(ops, t) && t <= now && Clocked(ops + more, now)
    requires forall i :: 0 <= i < |more| ==> NewEvent(more[i], id) == []
    ensures Score(Live(Window(Run(ops + more, win), id), now, win)) <= Score(Live(Window(Run(ops, win), id), t, win))
    ensures (forall i :: 0 <= i < |ops| && NewEvent(ops[i], id) != [] ==> ops[i].now + win <= now) ==>
              Score(Live(Window(Run(ops + more, win), id), now, win)) == 0
              && !Quarantined(threshold, Score(Live(Window(Run(ops + more, win), id), now, win)))
  {
    WindowIsRecentHistory(ops, id, t, win);
    WindowIsRecentHistory(ops + more, id, now, win);
    HistoryStays(ops, more, id);
    RecentFades(History(ops, id), t, now, win);
    if forall i :: 0 <= i < |ops| && NewEvent(ops[i], id) != [] ==> ops[i].now + win <= now {
      HistoryTimes(ops, id, now - win);
    }
  }

  /** report() at one reading of the clock lists exactly the identities with a recent suspicious verdict,
      and says of each what score() and is_quarantined() say. */
  lemma ReportAgreesWithScore(ops: seq<Op>, id: string, now: real, win: real, threshold: int)
    requires Clocked(ops, now)
    ensures var t, recent := PruneAll(Run(ops, win), now, win), Recent(History(ops, id), now, win);
            && (id in t <==> recent != [])
            && (id in t ==> SummaryOf(t[id], threshold) == SummaryOf(recent, threshold))
            && (id in t ==> SummaryOf(t[id], threshold).score == Score(Live(Window(Run(ops, win), id), now, win)))
  {
    WindowIsRecentHistory(ops, id, now, win);
  }

  // ---------------------------------------------------------------- told from the calls

  /** A suspicious verdict on id, less than win seconds old. */
  predicate Counts(op: Op, id: string, now: real, win: real) {
    op.RecordRun? && op.id == id && op.v.suspicious && now - op.now < win
  }

  function RecentWeight(ops: seq<Op>, id: string, now: real, win: real): nat {
    if ops == [] then 0
    else
      var op := ops[|ops| - 1];
      RecentWeight(ops[..|ops| - 1], id, now, win) + if Counts(op, id, now, win) then op.v.weight else 0
  }

  function RecentVerdicts(ops: seq<Op>, id: string, now: real, win: real): nat {
    if ops == [] then 0
    else RecentVerdicts(ops[..|ops| - 1], id, now, win) + if Counts(ops[|ops| - 1], id, now, win) then 1 else 0
  }

  /** How often the recent verdicts carry the flag f. */
  function RecentFlags(ops: seq<Op>, id: string, f: string, now: real, win: real): nat {
    if ops == [] then 0
    else
      var op := ops[|ops| - 1];
      RecentFlags(ops[..|ops| - 1], id, f, now, win) + if Counts(op, id, now, win) then multiset(op.v.flags)[f] else 0
  }

  lemma {:induction false} OccurrencesAreMultiplicity(flags: seq<string>, f: string)
    ensures Occurrences(flags, f) == multiset(flags)[f]
  {
    if flags != [] {
      OccurrencesAreMultiplicity(flags[1..], f);
      assert flags == [flags[0]] + flags[1..];
    }
  }

  lemma {:induction false} FlagCountOfSum(a: seq<Event>, b: seq<Event>, f: string)
    ensures FlagCount(a + b, f) == FlagCount(a, f) + FlagCount(b, f)
  {
    if a == [] {
      assert a + b == b;
    } else {
      FlagCountOfSum(a[1..], b, f);
      assert (a + b)[1..] == a[1..] + b;
    }
  }

  /** One event, or none. */
  lemma RecentOfNew(op: Op, id: string, f: string, now: real, win: real)
    ensures var r := Recent(NewEvent(op, id), now, win);
            && |r| == (if Counts(op, id, now, win) then 1 else 0)
            && Score(r) == (if Counts(op, id, now, win) then op.v.weight else 0)
            && FlagCount(r, f) == (if Counts(op, id, now, win) then multiset(op.v.flags)[f] else 0)
  {
    if op.RecordRun? {
      OccurrencesAreMultiplicity(op.v.flags, f);
    }
  }

  lemma {:induction false} RecentIsTold(ops: seq<Op>, id: string, f: string, now: real, win: real)
    ensures var r := Recent(History(ops, id), now, win);
            && |r| == RecentVerdicts(ops, id, now, win)
            && Score(r) == RecentWeight(ops, id, now, win)
            && FlagCount(r, f) == RecentFlags(ops, id, f, now, win)
  {
    if ops != [] {
      var p, e := ops[..|ops| - 1], NewEvent(ops[|ops| - 1], id);
      RecentIsTold(p, id, f, now, win);
      RecentOfSum(History(p, id), e, now, win);
      ScoreOfSum(Recent(History(p, id), now, win), Recent(e, now, win));
      FlagCountOfSum(Recent(History(p, id), now, win), Recent(e, now, win), f);
      RecentOfNew(ops[|ops| - 1], id, f, now, win);
    }
  }

  /** After any run: the score of an identity is the weight of its suspicious verdicts of the last window, it is
      quarantined exactly when the threshold is positive and that weight reaches it, and its line in the report
      has that score, the number of these verdicts, and of each flag how often they carry it. */
  lemma ReportLineIsTold(ops: seq<Op>, id: string, now: real, win: real, threshold: int)
    requires Clocked(ops, now)
    ensures var weight, w := RecentWeight(ops, id, now, win), Live(Window(Run(ops, win), id), now, win);
            var line := SummaryOf(w, threshold);
            && Score(w) == weight
            && (Quarantined(threshold, Score(w)) <==> threshold > 0 && weight >= threshold)
            && line.score == weight && line.events == RecentVerdicts(ops, id, now, win)
            && (line.quarantined <==> threshold > 0 && weight >= threshold)
            && forall f :: if f in line.flags then line.flags[f] == RecentFlags(ops, id, f, now, win) > 0
                           else RecentFlags(ops, id, f, now, win) == 0
  {
    WindowIsRecentHistory(ops, id, now, win);
    var w := Live(Window(Run(ops, win), id), now, win);
    RecentIsTold(ops, id, "", now, win);
    forall f
      ensures FlagCount(w, f) == RecentFlags(ops, id, f, now, win) && (f in FlagSet(w) <==> FlagCount(w, f) > 0)
    {
      RecentIsTold(ops, id, f, now, win);
      FlagSetIsCounted(w, f);
    }
  }
}
