/** Collecting a run's output, app/executor/runner.py: the capped reader of the one-shot path, and the
    live path, in which two pumps fill a queue and a generator drains it until both streams have ended or
    the deadline has passed. */
module Output {
  import opened Options
  import opened Sequences

  type byte = x: int | 0 <= x < 256

  const READ_SIZE := 4096

  /** How many of n bytes the cap lets through. */
  function CapLength(n: nat, cap: int): nat { if cap <= 0 then 0 else if n <= cap then n else cap }

  function Capped(data: seq<byte>, cap: int): seq<byte> { data[..CapLength(|data|, cap)] }

  predicate Truncated(total: nat, cap: int) { total > 0 && total >= cap }

  /** chunks is what the reads return; a read returns the empty string at the end of the stream only. */
  method ReadCapped(chunks: seq<seq<byte>>, cap: int) returns (buf: seq<byte>, truncated: bool)
    requires forall i :: 0 <= i < |chunks| ==> chunks[i] != []
    ensures buf == Capped(Flatten(chunks), cap) && truncated == Truncated(|Flatten(chunks)|, cap)
    ensures var data := Flatten(chunks);
            && buf <= data && |buf| == (if cap <= 0 then 0 else if |data| <= cap then |data| else cap)
            && (truncated <==> |data| > 0 && |data| >= cap)
  {
    buf, truncated := [], false;
    var i := 0;
    while true
      invariant 0 <= i <= |chunks|
      invariant buf == Capped(Flatten(chunks[..i]), cap)
      invariant truncated == Truncated(|Flatten(chunks[..i])|, cap)
      decreases |chunks| - i
    {
      var chunk := if i < |chunks| then chunks[i] else [];
      if chunk == [] {
        assert chunks[..i] == chunks;
        return;
      }
      assert chunks[..i + 1] == chunks[..i] + [chunk];
      if |buf| < cap {
        buf := buf + if |chunk| <= cap - |buf| then chunk else chunk[..cap - |buf|];
      }
      if |buf| >= cap {
        truncated := true;
      }
      i := i + 1;
    }
  }

  // ---------------------------------------------------------------- the live path

  datatype Source = Out | Err
  datatype Item = Data(src: Source, bytes: seq<byte>) | Eof(src: Source)
  datatype Pump = Pump(read: nat, total: nat, truncated: bool, ended: bool)
  datatype Result = Ran(timedOut: bool, truncatedOut: bool, truncatedErr: bool) | CompileFailed | Failed
  datatype Event = Chunk(src: Source, bytes: seq<byte>) | CompileOutput | Done(result: Result)
  datatype Phase = Staging | Compiling | Merging | Draining | Over

  /** What the program writes in all, the cap, and whether there is a compile phase. */
  datatype Job = Job(out: seq<byte>, err: seq<byte>, cap: int, compiled: bool)
  datatype Stream = Stream(phase: Phase, out: Pump, err: Pump, q: seq<Item>, eofs: nat, timedOut: bool,
      events: seq<Event>)

  function Idle(): Pump { Pump(0, 0, false, false) }

  function Fresh(): Stream { Stream(Staging, Idle(), Idle(), [], 0, false, []) }

  function Written(j: Job, src: Source): seq<byte> { if src.Out? then j.out else j.err }

  function PumpOf(s: Stream, src: Source): Pump { if src.Out? then s.out else s.err }

  function WithPump(s: Stream, src: Source, p: Pump): Stream {
    if src.Out? then s.(out := p) else s.(err := p)
  }

  datatype Step =
    | Staged
    | Compiles(ok: bool, hasStderr: bool)
    | PumpReads(src: Source, n: nat)
    | PumpEnds(src: Source)
    | Delivers
    | Expires
    | BothEnded
    | Finishes
    | Raises

  predicate Enabled(j: Job, s: Stream, step: Step) {
    match step
    case Staged => s.phase.Staging?
    case Compiles(_, _) => s.phase.Compiling?
    case PumpReads(src, n) =>
      s.phase.Merging? && !PumpOf(s, src).ended && 1 <= n <= READ_SIZE && PumpOf(s, src).read + n <= |Written(j, src)|
    case PumpEnds(src) => s.phase.Merging? && !PumpOf(s, src).ended && PumpOf(s, src).read == |Written(j, src)|
    case Delivers => s.phase.Merging? && s.eofs < 2 && s.q != []
    case Expires => s.phase.Merging? && s.eofs < 2
    case BothEnded => s.phase.Merging? && s.eofs >= 2
    case Finishes => s.phase.Draining?
    case Raises => !s.phase.Over?
  }

  /** chunk[: cap - total], if the cap is not reached yet */
  function Room(chunk: seq<byte>, cap: int, total: nat): seq<byte> {
    if total >= cap then [] else if |chunk| <= cap - total then chunk else chunk[..cap - total]
  }

  /** One turn of a pump's loop, from the end of its read to the next await that can suspend. */
  function PumpTurn(j: Job, s: Stream, src: Source, n: nat): Stream
    requires PumpOf(s, src).read + n <= |Written(j, src)|
  {
    var p := PumpOf(s, src);
    var chunk := Written(j, src)[p.read..p.read + n];
    var send := Room(chunk, j.cap, p.total);
    var total := p.total + |send|;
    var s' := if p.total < j.cap then s.(q := s.q + [Data(src, send)]) else s;
    WithPump(s', src, Pump(p.read + n, total, p.truncated || total >= j.cap, false))
  }

  function Next(j: Job, s: Stream, step: Step): Stream
    requires Enabled(j, s, step)
  {
    match step
    case Staged => s.(phase := if j.compiled then Compiling else Merging)
    case Compiles(ok, hasStderr) =>
      if ok then s.(phase := Merging)
      else s.(phase := Over, events := s.events + (if hasStderr then [CompileOutput] else []) + [Done(CompileFailed)])
    case PumpReads(src, n) => PumpTurn(j, s, src, n)
    case PumpEnds(src) => WithPump(s.(q := s.q + [Eof(src)]), src, PumpOf(s, src).(ended := true))
    case Delivers =>
      (match s.q[0]
       case Data(src, bytes) => s.(q := s.q[1..], events := s.events + [Chunk(src, bytes)])
       case Eof(_) => s.(q := s.q[1..], eofs := s.eofs + 1))
    case Expires => s.(phase := Draining, timedOut := true)
    case BothEnded => s.(phase := Draining)
    case Finishes => s.(phase := Over, events := s.events + [Done(Ran(s.timedOut, s.out.truncated, s.err.truncated))])
    case Raises => s.(phase := Over, events := s.events + [Done(Failed)])
  }

  /** What the client was sent of one stream, and in which chunks. */
  function Sent(events: seq<Event>, src: Source): seq<byte> {
    if events == [] then []
    else
      var e := events[|events| - 1];
      Sent(events[..|events| - 1], src) + if e.Chunk? && e.src == src then e.bytes else []
  }

  function Chunks(events: seq<Event>, src: Source): seq<seq<byte>> {
    if events == [] then []
    else
      var e := events[|events| - 1];
      Chunks(events[..|events| - 1], src) + if e.Chunk? && e.src == src then [e.bytes] else []
  }

  function Queued(q: seq<Item>, src: Source): seq<byte> {
    if q == [] then []
    else (if q[0].Data? && q[0].src == src then q[0].bytes else []) + Queued(q[1..], src)
  }

  // ---------------------------------------------------------------- the invariant

  /** Everything read so far, up to the cap, is either sent or in the queue, in order. */
  ghost predicate PumpOk(j: Job, s: Stream, src: Source) {
    Flows(PumpOf(s, src), Written(j, src), j.cap, Sent(s.events, src), Queued(s.q, src))
  }

  ghost predicate Flows(p: Pump, d: seq<byte>, cap: int, sent: seq<byte>, queued: seq<byte>) {
    && p.read <= |d|
    && p.total == CapLength(p.read, cap)
    && p.truncated == Truncated(p.read, cap)
    && sent + queued == d[..p.total]
    && (p.ended ==> p.read == |d|)
  }

  function EofTaken(s: Stream, src: Source): nat { if PumpOf(s, src).ended && Eof(src) !in s.q then 1 else 0 }

  /** A stream's end marker comes once, after all its data. */
  ghost predicate QueueOk(s: Stream) {
    && (forall i, k :: 0 <= i < k < |s.q| && s.q[i].Eof? ==> s.q[k].src != s.q[i].src)
    && (forall src :: !PumpOf(s, src).ended ==> Eof(src) !in s.q)
    && (forall src, i :: 0 <= i < |s.q| && EofTaken(s, src) == 1 ==> s.q[i].src != src)
    && s.eofs == EofTaken(s, Out) + EofTaken(s, Err)
  }

  ghost predicate EventsOk(s: Stream) {
    && (forall i :: 0 <= i < |s.events| - 1 ==> !s.events[i].Done?)
    && (s.events != [] ==> (s.events[|s.events| - 1].Done? <==> s.phase.Over?))
    && (s.phase.Over? ==> s.events != [])
    && (s.phase.Draining? ==> s.timedOut || s.eofs >= 2)
    && (s.phase.Staging? || s.phase.Compiling? || s.phase.Merging? ==> !s.timedOut)
    && (s.phase.Over? && s.events[|s.events| - 1] == Done(Ran(false, s.out.truncated, s.err.truncated)) ==> s.eofs >= 2)
    && (s.phase.Over? && s.events[|s.events| - 1].result.Ran? ==>
          s.events[|s.events| - 1].result == Ran(s.timedOut, s.out.truncated, s.err.truncated))
  }

  // ---------------------------------------------------------------- every step keeps it

  lemma {:induction false} QueuedSnoc(q: seq<Item>, item: Item, src: Source)
    ensures Queued(q + [item], src) == Queued(q, src) + if item.Data? && item.src == src then item.bytes else []
  {
    if q != [] {
      QueuedSnoc(q[1..], item, src);
      assert (q + [item])[1..] == q[1..] + [item];
    }
  }

  lemma SentSnoc(events: seq<Event>, e: Event, src: Source)
    ensures Sent(events + [e], src) == Sent(events, src) + if e.Chunk? && e.src == src then e.bytes else []
  {
    assert (events + [e])[..|events|] == events;
  }

  /** One chunk at the cap. */
  lemma FlowReads(p: Pump, d: seq<byte>, cap: int, sent: seq<byte>, queued: seq<byte>, n: nat)
    requires Flows(p, d, cap, sent, queued) && 1 <= n && p.read + n <= |d|
    ensures var send := Room(d[p.read..p.read + n], cap, p.total);
            var total := p.total + |send|;
            Flows(Pump(p.read + n, total, p.truncated || total >= cap, false), d, cap, sent, queued + send)
  {
    var send := Room(d[p.read..p.read + n], cap, p.total);
    assert send == d[p.total..p.total + |send|];
    assert d[..p.total + |send|] == d[..p.total] + send;
    assert sent + (queued + send) == (sent + queued) + send;
  }

  /** What a turn of the pump appends to its part of the queue. */
  lemma TurnQueues(j: Job, s: Stream, src: Source, n: nat, send: seq<byte>)
    requires Enabled(j, s, PumpReads(src, n))
    requires send == Room(Written(j, src)[PumpOf(s, src).read..PumpOf(s, src).read + n], j.cap, PumpOf(s, src).total)
    ensures PumpTurn(j, s, src, n).events == s.events
    ensures Queued(PumpTurn(j, s, src, n).q, src) == Queued(s.q, src) + send
  {
    if PumpOf(s, src).total < j.cap {
      QueuedSnoc(s.q, Data(src, send), src);
    } else {
      assert Queued(s.q, src) + [] == Queued(s.q, src);
    }
  }

  lemma OwnPumpReads(j: Job, s: Stream, src: Source, n: nat)
    requires PumpOk(j, s, src) && Enabled(j, s, PumpReads(src, n))
    ensures PumpOk(j, PumpTurn(j, s, src, n), src)
  {
    var p := PumpOf(s, src);
    var send := Room(Written(j, src)[p.read..p.read + n], j.cap, p.total);
    var total := p.total + |send|;
    TurnQueues(j, s, src, n, send);
    assert PumpOf(PumpTurn(j, s, src, n), src) == Pump(p.read + n, total, p.truncated || total >= j.cap, false);
    FlowReads(p, Written(j, src), j.cap, Sent(s.events, src), Queued(s.q, src), n);
  }

  lemma OtherPumpReads(j: Job, s: Stream, src: Source, n: nat, other: Source)
    requires PumpOk(j, s, other) && Enabled(j, s, PumpReads(src, n)) && other != src
    ensures PumpOk(j, PumpTurn(j, s, src, n), other)
  {
    var p := PumpOf(s, src);
    var send := Room(Written(j, src)[p.read..p.read + n], j.cap, p.total);
    QueuedSnoc(s.q, Data(src, send), other);
    assert Queued(s.q, other) + [] == Queued(s.q, other);
  }

  lemma PumpReadsKeepsQueue(j: Job, s: Stream, src: Source, n: nat)
    requires QueueOk(s) && Enabled(j, s, PumpReads(src, n))
    ensures QueueOk(PumpTurn(j, s, src, n))
  {
    var s' := PumpTurn(j, s, src, n);
    assert forall x: Source :: Eof(x) in s'.q <==> Eof(x) in s.q;
    assert Eof(src) !in s.q;
  }

  lemma PumpEndsKeepsPumps(j: Job, s: Stream, src: Source, other: Source)
    requires PumpOk(j, s, other) && Enabled(j, s, PumpEnds(src))
    ensures PumpOk(j, Next(j, s, PumpEnds(src)), other)
  {
    QueuedSnoc(s.q, Eof(src), other);
    assert Queued(s.q, other) + [] == Queued(s.q, other);
  }

  lemma PumpEndsKeepsQueue(j: Job, s: Stream, src: Source)
    requires QueueOk(s) && Enabled(j, s, PumpEnds(src))
    ensures QueueOk(Next(j, s, PumpEnds(src)))
  {
    var s' := Next(j, s, PumpEnds(src));
    assert forall x: Source :: Eof(x) in s'.q <==> Eof(x) in s.q || x == src;
    assert Eof(src) !in s.q;
  }

  /** What is taken off the queue is what is sent. */
  lemma FlowDelivers(p: Pump, d: seq<byte>, cap: int, sent: seq<byte>, bytes: seq<byte>, rest: seq<byte>)
    requires Flows(p, d, cap, sent, bytes + rest)
    ensures Flows(p, d, cap, sent + bytes, rest)
  {
    assert sent + (bytes + rest) == (sent + bytes) + rest;
  }

  lemma DeliveryKeepsPumps(j: Job, s: Stream, src: Source)
    requires PumpOk(j, s, src) && Enabled(j, s, Delivers)
    ensures PumpOk(j, Next(j, s, Delivers), src)
  {
    var item, sent, rest := s.q[0], Sent(s.events, src), Queued(s.q[1..], src);
    var bytes := if item.Data? && item.src == src then item.bytes else [];
    FlowDelivers(PumpOf(s, src), Written(j, src), j.cap, sent, bytes, rest);
    if item.Data? {
      SentSnoc(s.events, Chunk(item.src, item.bytes), src);
    } else {
      assert sent + bytes == sent;
    }
  }

  lemma DeliveryKeepsQueue(j: Job, s: Stream)
    requires QueueOk(s) && Enabled(j, s, Delivers)
    ensures QueueOk(Next(j, s, Delivers))
  {
    var s' := Next(j, s, Delivers);
    assert s.q == [s.q[0]] + s'.q;
    assert forall x: Source :: Eof(x) in s.q <==> Eof(x) == s.q[0] || Eof(x) in s'.q;
    assert forall i :: 0 <= i < |s'.q| ==> s'.q[i] == s.q[i + 1];
    if s.q[0].Eof? {
      assert Eof(s.q[0].src) !in s'.q;
    }
  }

  /** The steps that only append to the events, or change the phase. */
  lemma OtherStepsKeepPumps(j: Job, s: Stream, step: Step, src: Source)
    requires PumpOk(j, s, src) && Enabled(j, s, step)
    requires !step.PumpReads? && !step.PumpEnds? && !step.Delivers?
    ensures PumpOk(j, Next(j, s, step), src)
  {
    var sent := Sent(s.events, src);
    assert sent + [] == sent;
    match step
    case Compiles(ok, hasStderr) =>
      if !ok {
        var before := s.events + if hasStderr then [CompileOutput] else [];
        assert hasStderr || before == s.events;
        SentSnoc(s.events, CompileOutput, src);
        SentSnoc(before, Done(CompileFailed), src);
      }
    case Finishes => SentSnoc(s.events, Done(Ran(s.timedOut, s.out.truncated, s.err.truncated)), src);
    case Raises => SentSnoc(s.events, Done(Failed), src);
    case _ =>
  }

  lemma StepKeepsPump(j: Job, s: Stream, step: Step, src: Source)
    requires PumpOk(j, s, src) && Enabled(j, s, step)
    ensures PumpOk(j, Next(j, s, step), src)
  {
    match step
    case PumpReads(x, n) => if x == src { OwnPumpReads(j, s, x, n); } else { OtherPumpReads(j, s, x, n, src); }
    case PumpEnds(x) => PumpEndsKeepsPumps(j, s, x, src);
    case Delivers => DeliveryKeepsPumps(j, s, src);
    case _ => OtherStepsKeepPumps(j, s, step, src);
  }

  lemma StepKeepsQueue(j: Job, s: Stream, step: Step)
    requires QueueOk(s) && Enabled(j, s, step)
    ensures QueueOk(Next(j, s, step))
  {
    match step
    case PumpReads(src, n) => PumpReadsKeepsQueue(j, s, src, n);
    case PumpEnds(src) => PumpEndsKeepsQueue(j, s, src);
    case Delivers => DeliveryKeepsQueue(j, s);
    case _ =>
  }
}
