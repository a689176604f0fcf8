/** The event stream: the server's framing, _sse in app/api/routes.py, and the client's loop that undoes it,
    runStream in app/ui/static/index.html. The framing is that of section 9.2.5 of the WHATWG HTML standard;
    a payload is JSON text as json.dumps writes it, which has no raw newline (section 7 of RFC 8259) and only
    ASCII characters, so that bytes and characters are the same. */
module Sse {
  import opened Sequences

  const DATA := "data: "
  const BLANK := "\n\n"

  /** _sse */
  function Frame(payload: string): string { DATA + payload + BLANK }

  function FrameAll(payloads: seq<string>): string {
    if payloads == [] then "" else Frame(payloads[0]) + FrameAll(payloads[1..])
  }

  predicate BreakAt(s: string, i: nat) { i + 2 <= |s| && s[i] == '\n' && s[i + 1] == '\n' }

  function Find(s: string, from: nat): (i: nat)
    requires from <= |s|
    ensures from <= i <= |s| && (i < |s| ==> BreakAt(s, i))
    ensures forall j :: from <= j < i ==> !BreakAt(s, j)
    decreases |s| - from
  {
    if BreakAt(s, from) || from == |s| then from else Find(s, from + 1)
  }

  /** buf.indexOf("\n\n"), with the length of s for -1 */
  function Break(s: string): (i: nat)
    ensures i <= |s| && (i < |s| ==> BreakAt(s, i))
    ensures forall j :: 0 <= j < i ==> !BreakAt(s, j)
  {
    Find(s, 0)
  }

  lemma BreakIsFirst(s: string, i: nat)
    requires BreakAt(s, i) && forall j :: 0 <= j < i ==> !BreakAt(s, j)
    ensures Break(s) == i
  {
  }

  /** line.replace(/^data: /, "") */
  function Strip(line: string): string { if DATA <= line then line[|DATA|..] else line }

  /** The frames that are complete in buf, and what is left of it. */
  function Frames(buf: string): seq<string>
    decreases |buf|
  {
    var i := Break(buf);
    if i == |buf| then [] else [buf[..i]] + Frames(buf[i + 2..])
  }

  function Rest(buf: string): string
    decreases |buf|
  {
    var i := Break(buf);
    if i == |buf| then buf else Rest(buf[i + 2..])
  }

  /** The events that come of the frames: empty lines and lines that are no JSON are skipped. */
  function Events(frames: seq<string>, parses: string -> bool): seq<string> {
    if frames == [] then []
    else
      var line := Strip(frames[0]);
      (if line != "" && parses(line) then [line] else []) + Events(frames[1..], parses)
  }

  // ---------------------------------------------------------------- the client's loop

  lemma BreakOfAppend(a: string, b: string)
    requires Break(a) < |a|
    ensures Break(a + b) == Break(a)
  {
    var i := Break(a);
    assert BreakAt(a + b, i);
    forall j | 0 <= j < i ensures !BreakAt(a + b, j) {
      assert !BreakAt(a, j);
    }
    BreakIsFirst(a + b, i);
  }

  lemma FirstFrame(s: string, frame: string, tail: string)
    requires Break(s) == |frame| < |s| && s[..|frame|] == frame && s[|frame| + 2..] == tail
    ensures Frames(s) == [frame] + Frames(tail) && Rest(s) == Rest(tail)
  {
  }

  /** What has been read so far can be split into frames at once or bit by bit. */
  lemma {:induction false} FramesOfAppend(a: string, b: string)
    ensures Frames(a + b) == Frames(a) + Frames(Rest(a) + b)
    ensures Rest(a + b) == Rest(Rest(a) + b)
    decreases |a|
  {
    var i := Break(a);
    if i < |a| {
      var frame, tail := a[..i], a[i + 2..];
      BreakOfAppend(a, b);
      FirstFrame(a, frame, tail);
      FirstFrame(a + b, frame, tail + b);
      FramesOfAppend(tail, b);
      Reassociate([frame], Frames(tail), Frames(Rest(tail) + b));
    } else {
      assert Frames(a) == [] && Rest(a) == a;
    }
  }

  lemma {:induction false} EventsOfAppend(f: seq<string>, g: seq<string>, parses: string -> bool)
    ensures Events(f + g, parses) == Events(f, parses) + Events(g, parses)
  {
    if f == [] {
      assert f + g == g;
    } else {
      assert (f + g)[0] == f[0] && (f + g)[1..] == f[1..] + g;
      EventsOfAppend(f[1..], g, parses);
    }
  }

  /** What one frame adds to the events. */
  function Found(frame: string, parses: string -> bool): seq<string> {
    var line := Strip(frame);
    if line != "" && parses(line) then [line] else []
  }

  lemma NextChunk(before: string, chunk: string, parses: string -> bool)
    ensures Events(Frames(before + chunk), parses) ==
              Events(Frames(before), parses) + Events(Frames(Rest(before) + chunk), parses)
    ensures Rest(before + chunk) == Rest(Rest(before) + chunk)
  {
    FramesOfAppend(before, chunk);
    EventsOfAppend(Frames(before), Frames(Rest(before) + chunk), parses);
  }

  lemma NextFrame(events: seq<string>, buf: string, parses: string -> bool, line: string, events': seq<string>)
    requires Break(buf) < |buf| && line == Strip(buf[..Break(buf)])
    requires events' == if line != "" && parses(line) then events + [line] else events
    ensures events' + Events(Frames(buf[Break(buf) + 2..]), parses) == events + Events(Frames(buf), parses)
    ensures Rest(buf[Break(buf) + 2..]) == Rest(buf)
  {
    var found := Found(buf[..Break(buf)], parses);
    assert events' == events + found;
    Splice(events, found, Events(Frames(buf[Break(buf) + 2..]), parses), Events(Frames(buf), parses));
  }

  lemma Splice(events: seq<string>, found: seq<string>, rest: seq<string>, all: seq<string>)
    requires all == found + rest
    ensures (events + found) + rest == events + all
  {
    Reassociate(events, found, rest);
  }

  /** The inner loop of runStream. */
  method TakeFrames(before: seq<string>, given: string, parses: string -> bool)
    returns (events: seq<string>, buf: string)
    ensures events == before + Events(Frames(given), parses)
    ensures buf == Rest(given)
  {
    events, buf := before, given;
    ghost var all := before + Events(Frames(given), parses);
    var idx := Break(buf);
    while idx < |buf|
      invariant idx == Break(buf)
      invariant events + Events(Frames(buf), parses) == all
      invariant Rest(buf) == Rest(given)
      decreases |buf|
    {
      var line := Strip(buf[..idx]);
      ghost var seen := events;
      if line != "" && parses(line) {
        events := events + [line];
      }
      NextFrame(seen, buf, parses, line, events);
      buf := buf[idx + 2..];
      idx := Break(buf);
    }
  }

  /** runStream: whatever the chunks, it finds the events of their concatenation. */
  method ReadStream(chunks: seq<string>, parses: string -> bool) returns (events: seq<string>, buf: string)
    ensures events == Events(Frames(Flatten(chunks)), parses)
    ensures buf == Rest(Flatten(chunks))
  {
    events, buf := [], "";
    for n := 0 to |chunks|
      invariant events == Events(Frames(Flatten(chunks[..n])), parses)
      invariant buf == Rest(Flatten(chunks[..n]))
    {
      assert chunks[..n + 1] == chunks[..n] + [chunks[n]];
      NextChunk(Flatten(chunks[..n]), chunks[n], parses);
      buf := buf + chunks[n];
      events, buf := TakeFrames(events, buf, parses);
    }
    assert chunks[..|chunks|] == chunks;
  }

  // ---------------------------------------------------------------- round trip

  /** What the framing can carry. */
  predicate Carries(payload: string, parses: string -> bool) {
    payload != "" && parses(payload) && Break(payload) == |payload| && payload[|payload| - 1] != '\n'
  }

  lemma FrameBreaksAtItsEnd(payload: string, after: string)
    requires payload != "" && Break(payload) == |payload| && payload[|payload| - 1] != '\n'
    ensures Break(Frame(payload) + after) == |DATA + payload|
    ensures (Frame(payload) + after)[..|DATA + payload|] == DATA + payload
    ensures (Frame(payload) + after)[|DATA + payload| + 2..] == after
  {
    var s := Frame(payload) + after;
    var n := |DATA + payload|;
    assert s == DATA + payload + (BLANK + after);
    forall j | 0 <= j < n ensures !BreakAt(s, j) {
      if j < |DATA| {
        assert s[j] == DATA[j];
      } else {
        assert s[j] == payload[j - |DATA|] && !BreakAt(payload, j - |DATA|);
        if j + 1 < n {
          assert s[j + 1] == payload[j + 1 - |DATA|];
        }
      }
    }
    assert s[n] == BLANK[0] && s[n + 1] == BLANK[1];
    BreakIsFirst(s, n);
  }

  lemma {:induction false} CarriedPayloadsComeBack(payloads: seq<string>, parses: string -> bool)
    requires forall p :: p in payloads ==> Carries(p, parses)
    ensures Events(Frames(FrameAll(payloads)), parses) == payloads
    ensures Rest(FrameAll(payloads)) == ""
  {
    if payloads != [] {
      assert payloads[0] in payloads;
      FrameBreaksAtItsEnd(payloads[0], FrameAll(payloads[1..]));
      assert Strip(DATA + payloads[0]) == payloads[0];
      CarriedPayloadsComeBack(payloads[1..], parses);
    }
  }

  lemma LineIsCarried(buf: string, k: nat, parses: string -> bool)
    requires k < Break(buf) < |buf| && parses(buf[k..Break(buf)])
    ensures Carries(buf[k..Break(buf)], parses)
  {
    var i := Break(buf);
    var line := buf[k..i];
    assert !BreakAt(buf, i - 1);
    forall j | 0 <= j < |line| ensures !BreakAt(line, j) {
      assert !BreakAt(buf, k + j);
    }
  }

  lemma {:induction false} EventsAreCarried(buf: string, parses: string -> bool)
    ensures forall e :: e in Events(Frames(buf), parses) ==> Carries(e, parses)
    decreases |buf|
  {
    var i := Break(buf);
    if i < |buf| {
      EventsAreCarried(buf[i + 2..], parses);
      var line := Strip(buf[..i]);
      if line != "" && parses(line) {
        assert line == buf[i - |line|..i];
        LineIsCarried(buf, i - |line|, parses);
      }
    } else {
      assert Events(Frames(buf), parses) == [];
    }
  }

  lemma {:induction false} FrameAllSnoc(payloads: seq<string>, last: string)
    ensures FrameAll(payloads + [last]) == FrameAll(payloads) + Frame(last)
  {
    if payloads == [] {
      assert FrameAll([last]) == Frame(last) + FrameAll([]) && [] + [last] == [last];
    } else {
      FrameAllSnoc(payloads[1..], last);
      assert (payloads + [last])[1..] == payloads[1..] + [last];
    }
  }

  /** What the server sends: each payload after "data: " and before a blank line. */
  ghost predicate Sent(payloads: seq<string>, frames: seq<string>) {
    |frames| == |payloads| && forall i :: 0 <= i < |payloads| ==> frames[i] == "data: " + payloads[i] + "\n\n"
  }

  lemma {:induction false} SentIsFramed(payloads: seq<string>, frames: seq<string>)
    requires Sent(payloads, frames)
    ensures Flatten(frames) == FrameAll(payloads)
  {
    if payloads != [] {
      var n := |payloads| - 1;
      assert payloads == payloads[..n] + [payloads[n]];
      SentIsFramed(payloads[..n], frames[..n]);
      FrameAllSnoc(payloads[..n], payloads[n]);
    }
  }

  lemma CarriesExactly(payload: string, parses: string -> bool)
    ensures Carries(payload, parses) <==>
            payload != "" && parses(payload) && payload[|payload| - 1] != '\n' &&
            forall i :: 0 <= i < |payload| - 1 ==> payload[i] != '\n' || payload[i + 1] != '\n'
  {
    if forall i :: 0 <= i < |payload| - 1 ==> payload[i] != '\n' || payload[i + 1] != '\n' {
      assert !BreakAt(payload, Break(payload));
    } else {
      var i :| 0 <= i < |payload| - 1 && payload[i] == '\n' && payload[i + 1] == '\n';
      assert BreakAt(payload, i);
    }
  }

  /** However what was sent is cut into chunks, the client gets back exactly its payloads, in order, with an
      empty buffer, if and only if each of them is non-empty JSON without a blank line in it or a newline at
      its end. */
  lemma FramingIsInvertedExactly(payloads: seq<string>, frames: seq<string>, chunks: seq<string>,
                                 parses: string -> bool)
    requires Sent(payloads, frames) && Flatten(chunks) == Flatten(frames)
    ensures Events(Frames(Flatten(chunks)), parses) == payloads && Rest(Flatten(chunks)) == "" <==>
            forall p :: p in payloads ==>
                          p != "" && parses(p) && p[|p| - 1] != '\n' &&
                          forall i :: 0 <= i < |p| - 1 ==> p[i] != '\n' || p[i + 1] != '\n'
  {
    SentIsFramed(payloads, frames);
    EventsAreCarried(FrameAll(payloads), parses);
    forall p | p in payloads {
      CarriesExactly(p, parses);
    }
    if forall p :: p in payloads ==> Carries(p, parses) {
      CarriedPayloadsComeBack(payloads, parses);
    }
  }

  /** The server's events are such payloads, so they all come back, however the stream is cut into chunks. */
  lemma ServerEventsComeBack(payloads: seq<string>, frames: seq<string>, chunks: seq<string>, parses: string -> bool)
    requires forall p :: p in payloads ==> p != "" && parses(p) && '\n' !in p
    requires Sent(payloads, frames) && Flatten(chunks) == Flatten(frames)
    ensures Events(Frames(Flatten(chunks)), parses) == payloads && Rest(Flatten(chunks)) == ""
  {
    forall p | p in payloads ensures Carries(p, parses) {
      assert forall i :: 0 <= i < |p| ==> p[i] != '\n';
      CarriesExactly(p, parses);
    }
    SentIsFramed(payloads, frames);
    CarriedPayloadsComeBack(payloads, parses);
  }

  /** A stream that is cut off shows a prefix of the events. */
  lemma CutStreamShowsPrefix(payloads: seq<string>, got: string, lost: string, parses: string -> bool)
    requires forall p :: p in payloads ==> Carries(p, parses)
    requires got + lost == FrameAll(payloads)
    ensures Events(Frames(got), parses) <= payloads
  {
    CarriedPayloadsComeBack(payloads, parses);
    FramesOfAppend(got, lost);
    EventsOfAppend(Frames(got), Frames(Rest(got) + lost), parses);
  }
}
