/** The shared abuse tracker, app/backends.py. Its sorted sets order simultaneous events by the text of
    their members, so what it has in common with the in-memory tracker is the bag of recent events; the
    scores and the reports then agree because they do not depend on the order. */
module RedisAbuse {
  import opened Text
  import opened Encodings
  import opened Redis
  import opened Abuse

  type Server = map<string, Key<ZSet>>

  /** The event a member stands for, as the report reads it. */
  function Decode(e: Entry): Event { Event(e.score, LuaWeight(e.member), PythonFlags(e.member)) }

  function Decoded(z: ZSet): seq<Event> {
    if z == [] then [] else [Decode(z[0])] + Decoded(z[1..])
  }

  /** The loop of the script: sum over ZRANGE of the leading digits. */
  function WeightTotal(z: ZSet): nat {
    if z == [] then 0 else LuaWeight(z[0].member) + WeightTotal(z[1..])
  }

  function Pruned(s: Server, id: string, now: real, win: real): ZSet {
    ZRemRangeByScore(Get(s, id, now, []), 0.0, now - win)
  }

  /** _AB_RECORD */
  function RecordScript(s: Server, id: string, v: Verdict, now: real, token: string, win: real): (Server, nat) {
    var z := Pruned(s, id, now, win);
    if v.suspicious then
      var z' := ZAdd(z, now, Member(v.weight, v.flags, token));
      (s[id := Key(z', now + (Ceil(win) + 1) as real)], WeightTotal(z'))
    else
      (Shrink(s, id, now, z), WeightTotal(z))
  }

  /** Every member of every key begins with a number, as record() writes it. */
  ghost predicate AllReadable(s: Server) { forall id, e :: id in s && e in s[id].value ==> Readable(e.member) }

  class RedisAbuseTracker {
    const threshold: int
    const window_s: real
    var keys: Server

    ghost predicate Valid()
      reads this
    {
      AllReadable(keys)
    }

    constructor (threshold: int, window_s: real)
      ensures this.threshold == threshold && this.window_s == window_s && keys == map[] && Valid()
    {
      this.threshold, this.window_s := threshold, window_s;
      keys := map[];
    }

    method Record(id: string, v: Verdict, now: real, token: string) returns (score: nat)
      requires Valid()
      modifies this
      ensures Valid() && (keys, score) == RecordScript(old(keys), id, v, now, token, window_s)
    {
      RecordIsReadable(keys, id, v, now, token, window_s);
      var z := ZRemRangeByScore(Get(keys, id, now, []), 0.0, now - window_s);
      keys := Shrink(keys, id, now, z);
      if v.suspicious {
        z := ZAdd(z, now, Member(v.weight, v.flags, token));
        keys := keys[id := Key(z, now + (Ceil(window_s) + 1) as real)];
      }
      ShrinkThenSet(old(keys), id, now, Pruned(old(keys), id, now, window_s),
          Key(z, now + (Ceil(window_s) + 1) as real));
      score := AddUp(z);
    }

    /** One key of report(): prune, read the members back, add them up. */
    method Describe(id: string, now: real) returns (s: Summary)
      requires Valid()
      modifies this
      ensures Valid() && keys == Shrink(old(keys), id, now, Pruned(old(keys), id, now, window_s))
      ensures s == SummaryOf(Decoded(Pruned(old(keys), id, now, window_s)), threshold)
    {
      PrunedIsReadable(keys, id, now, window_s);
      var z := ZRemRangeByScore(Get(keys, id, now, []), 0.0, now - window_s);
      keys := Shrink(keys, id, now, z);
      var score, counts := ReadBack(z);
      CountsAreSummary(Decoded(z), counts);
      DecodedLength(z);
      s := Summary(score, |z|, counts, threshold > 0 && score >= threshold);
    }

    /** scanned: the keys that scan_iter gives, among them all that are there during the scan. */
    method Report(scanned: set<string>, now: real) returns (out: map<string, Summary>)
      requires Valid() && forall id :: id in keys && now <= keys[id].expires ==> id in scanned
      modifies this
      ensures Valid() && SamePruned(old(keys), keys, now, window_s)
      ensures forall id :: id in out <==> Pruned(old(keys), id, now, window_s) != []
      ensures forall id :: id in out ==> out[id] == SummaryOf(Decoded(Pruned(old(keys), id, now, window_s)), threshold)
    {
      out := map[];
      var todo := scanned;
      while todo != {}
        invariant todo <= scanned
        invariant Valid() && SamePruned(old(keys), keys, now, window_s)
        invariant forall id :: id in out <==> id in scanned - todo && Pruned(old(keys), id, now, window_s) != []
        invariant forall id :: id in out ==> out[id] == SummaryOf(Decoded(Pruned(old(keys), id, now, window_s)),
                  threshold)
        decreases |todo|
      {
        var id :| id in todo;
        todo := todo - {id};
        ShrinkKeepsPruned(keys, id, now, window_s);
        ghost var z := Pruned(keys, id, now, window_s);
        assert z == Pruned(old(keys), id, now, window_s);
        DecodedLength(z);
        var s := Describe(id, now);
        if s.events > 0 {
          out := out[id := s];
        }
      }
      UnscannedIsEmpty(old(keys), scanned, now, window_s);
    }
  }

  /** Every reading at now finds the same in both. */
  ghost predicate SamePruned(s: Server, s': Server, now: real, win: real) {
    forall id :: Pruned(s', id, now, win) == Pruned(s, id, now, win)
  }

  lemma {:induction false} RemovalIsIdempotent(z: ZSet, lo: real, hi: real)
    ensures ZRemRangeByScore(ZRemRangeByScore(z, lo, hi), lo, hi) == ZRemRangeByScore(z, lo, hi)
  {
    if z != [] {
      RemovalIsIdempotent(z[1..], lo, hi);
      var rest := ZRemRangeByScore(z[1..], lo, hi);
      assert ([z[0]] + rest)[1..] == rest && [] + rest == rest;
    }
  }

  lemma ShrinkKeepsPruned(s: Server, id: string, now: real, win: real)
    ensures SamePruned(s, Shrink(s, id, now, Pruned(s, id, now, win)), now, win)
  {
    RemovalIsIdempotent(Get(s, id, now, []), 0.0, now - win);
  }

  lemma UnscannedIsEmpty(s: Server, scanned: set<string>, now: real, win: real)
    requires forall id :: id in s && now <= s[id].expires ==> id in scanned
    ensures forall id :: id !in scanned ==> Pruned(s, id, now, win) == []
  {
  }

  lemma PrunedIsReadable(s: Server, id: string, now: real, win: real)
    requires AllReadable(s)
    ensures AllReadable(Shrink(s, id, now, Pruned(s, id, now, win)))
    ensures forall e :: e in Pruned(s, id, now, win) ==> Readable(e.member)
  {
    RemovalSelects(Get(s, id, now, []), 0.0, now - win);
  }

  lemma RecordIsReadable(s: Server, id: string, v: Verdict, now: real, token: string, win: real)
    requires AllReadable(s)
    ensures AllReadable(RecordScript(s, id, v, now, token, win).0)
  {
    PrunedIsReadable(s, id, now, win);
    var z, m := Pruned(s, id, now, win), Member(v.weight, v.flags, token);
    WeightRoundTrip(v.weight, v.flags, token);
    WithoutSelects(z, m);
    InsertMembers(Without(z, m), Entry(now, m));
  }

  lemma ShrinkThenSet(s: Server, id: string, now: real, z: ZSet, k: Key<ZSet>)
    ensures Shrink(s, id, now, z)[id := k] == s[id := k]
  {
  }

  /** The loop at the end of the script. */
  method AddUp(z: ZSet) returns (sum: nat)
    ensures sum == WeightTotal(z)
  {
    sum := 0;
    var i := 0;
    while i < |z|
      invariant 0 <= i <= |z|
      invariant sum + WeightTotal(z[i..]) == WeightTotal(z)
    {
      sum := sum + LuaWeight(z[i].member);
      i := i + 1;
    }
  }

  /** The loops over the members of one key in the report. */
  method ReadBack(z: ZSet) returns (score: nat, counts: map<string, nat>)
    requires forall e :: e in z ==> Readable(e.member)
    ensures score == Score(Decoded(z))
    ensures forall f :: if f in counts then counts[f] == FlagCount(Decoded(z), f) > 0 else FlagCount(Decoded(z), f) == 0
  {
    score, counts := 0, map[];
    var i := 0;
    while i < |z|
      invariant 0 <= i <= |z|
      invariant score + Score(Decoded(z[i..])) == Score(Decoded(z))
      invariant forall f :: f in counts ==> counts[f] > 0
      invariant forall f :: Tally(counts, f) + FlagCount(Decoded(z[i..]), f) == FlagCount(Decoded(z), f)
    {
      ReadersAgree(z[i].member);
      score := score + PythonWeight(z[i].member);
      DecodedNext(z, i);
      counts := AddFlags(counts, PythonFlags(z[i].member));
      i := i + 1;
    }
  }

  lemma DecodedNext(z: ZSet, i: nat)
    requires i < |z|
    ensures Score(Decoded(z[i..])) == LuaWeight(z[i].member) + Score(Decoded(z[i + 1..]))
    ensures forall f ::
              FlagCount(Decoded(z[i..]), f) ==
              Occurrences(PythonFlags(z[i].member), f) + FlagCount(Decoded(z[i + 1..]), f)
  {
    assert z[i..][1..] == z[i + 1..];
    assert Decoded(z[i..])[1..] == Decoded(z[i + 1..]);
  }

  lemma {:induction false} DecodedLength(z: ZSet)
    ensures |Decoded(z)| == |z| && Score(Decoded(z)) == WeightTotal(z)
  {
    if z != [] {
      DecodedLength(z[1..]);
    }
  }

  // ---------------------------------------------------------------- order does not matter

  lemma Split(a: seq<Event>, b: seq<Event>) returns (i: nat)
    requires a != [] && multiset(a) == multiset(b)
    ensures i < |b| && b == b[..i] + [a[0]] + b[i + 1..]
    ensures multiset(a[1..]) == multiset(b[..i] + b[i + 1..])
  {
    assert a[0] in multiset(b);
    i :| 0 <= i < |b| && b[i] == a[0];
    assert a == [a[0]] + a[1..];
    assert b == b[..i] + [a[0]] + b[i + 1..];
    assert multiset(a[1..]) == multiset(a) - multiset{a[0]};
    assert multiset(b[..i] + b[i + 1..]) == multiset(b) - multiset{a[0]};
  }

  lemma {:induction false} ScorePermutes(a: seq<Event>, b: seq<Event>, f: string)
    requires multiset(a) == multiset(b)
    ensures Score(a) == Score(b) && FlagCount(a, f) == FlagCount(b, f)
  {
    assert |multiset(a)| == |a| && |multiset(b)| == |b|;
    if a != [] {
      var i := Split(a, b);
      ScorePermutes(a[1..], b[..i] + b[i + 1..], f);
      TakeOut(b[..i], a[0], b[i + 1..], f);
    }
  }

  lemma {:induction false} TakeOut(l: seq<Event>, x: Event, r: seq<Event>, f: string)
    ensures Score(l + [x] + r) == x.weight + Score(l + r)
    ensures FlagCount(l + [x] + r, f) == Occurrences(x.flags, f) + FlagCount(l + r, f)
  {
    if l == [] {
      assert l + [x] + r == [x] + r && l + r == r && ([x] + r)[1..] == r;
    } else {
      TakeOut(l[1..], x, r, f);
      assert (l + [x] + r)[1..] == l[1..] + [x] + r && (l + r)[1..] == l[1..] + r;
    }
  }

  lemma SummaryPermutes(a: seq<Event>, b: seq<Event>, threshold: int)
    requires multiset(a) == multiset(b)
    ensures SummaryOf(a, threshold) == SummaryOf(b, threshold)
  {
    ScorePermutes(a, b, "");
    assert |multiset(a)| == |a| && |multiset(b)| == |b|;
    forall f ensures FlagCount(a, f) == FlagCount(b, f) && (f in FlagSet(a) <==> f in FlagSet(b)) {
      ScorePermutes(a, b, f);
      FlagSetIsCounted(a, f);
      FlagSetIsCounted(b, f);
    }
  }

  // ---------------------------------------------------------------- interleavings of nodes

  /** A recording by any node, or a reading: score() and the report prune a key the same way. */
  datatype Call = RecordCall(id: string, v: Verdict, now: real, token: string) | ReadCall(id: string, now: real)

  const TOKEN_LENGTH := 32

  function Apply(s: Server, call: Call, win: real): Server {
    match call
    case RecordCall(id, v, now, token) => RecordScript(s, id, v, now, token, win).0
    case ReadCall(id, now) => RecordScript(s, id, Verdict(false, [], 0), now, "", win).0
  }

  function Serve(calls: seq<Call>, win: real): Server {
    if calls == [] then map[] else Apply(Serve(calls[..|calls| - 1], win), calls[|calls| - 1], win)
  }

  function InMemory(call: Call): Op {
    match call
    case RecordCall(id, v, now, _) => RecordRun(id, v, now)
    case ReadCall(id, now) => ReadScore(id, now)
  }

  /** The same calls made on one in-memory tracker. */
  function Ops(calls: seq<Call>): seq<Op> {
    if calls == [] then [] else Ops(calls[..|calls| - 1]) + [InMemory(calls[|calls| - 1])]
  }

  /** One clock, tokens of one length never used twice, and verdicts as classify makes them. */
  ghost predicate WellTimed(calls: seq<Call>, now: real) {
    && (forall i :: 0 <= i < |calls| ==> 0.0 <= calls[i].now <= now)
    && (forall i, j :: 0 <= i < j < |calls| ==> calls[i].now <= calls[j].now)
    && (forall i, j :: 0 <= i < j < |calls| && calls[i].RecordCall? && calls[j].RecordCall? ==>
        calls[i].token != calls[j].token)
    && (forall i :: 0 <= i < |calls| && calls[i].RecordCall? ==>
        Writable(calls[i].v.flags) && |calls[i].token| == TOKEN_LENGTH)
  }

  predicate Writable(flags: seq<string>) { AllFree(flags, ',') && AllFree(flags, '|') && flags != [""] }

  function Tokens(calls: seq<Call>): set<string> {
    set i | 0 <= i < |calls| && calls[i].RecordCall? :: calls[i].token
  }

  function TokenOf(m: string): string { if |m| < TOKEN_LENGTH then m else m[|m| - TOKEN_LENGTH..] }

  function Raw(s: Server, id: string): ZSet { if id in s then s[id].value else [] }

  ghost predicate KeyOk(s: Server, id: string, used: set<string>, win: real) {
    && (forall e :: e in Raw(s, id) ==> 0.0 <= e.score && TokenOf(e.member) in used)
    && (id in s ==> forall e :: e in s[id].value ==> e.score + win <= s[id].expires)
  }

  lemma {:induction false} RemovalDecodes(z: ZSet, now: real, win: real)
    requires forall e :: e in z ==> 0.0 <= e.score
    ensures Decoded(ZRemRangeByScore(z, 0.0, now - win)) == Recent(Decoded(z), now, win)
  {
    if z != [] {
      var rest := ZRemRangeByScore(z[1..], 0.0, now - win);
      assert z[0] in z;
      RemovalDecodes(z[1..], now, win);
      assert ([z[0]] + rest)[1..] == rest && [] + rest == rest;
      assert Decoded(z)[0] == Decode(z[0]) && Decoded(z)[1..] == Decoded(z[1..]);
    }
  }

  lemma {:induction false} ExpiredDecodes(z: ZSet, now: real, win: real)
    requires forall e :: e in z ==> now - e.score >= win
    ensures Recent(Decoded(z), now, win) == []
  {
    if z != [] {
      assert z[0] in z;
      ExpiredDecodes(z[1..], now, win);
      assert Decoded(z)[0] == Decode(z[0]) && Decoded(z)[1..] == Decoded(z[1..]);
    }
  }

  lemma PrunedDecodes(s: Server, id: string, used: set<string>, now: real, win: real)
    requires KeyOk(s, id, used, win)
    ensures Decoded(Pruned(s, id, now, win)) == Recent(Decoded(Raw(s, id)), now, win)
    ensures forall e :: e in Pruned(s, id, now, win) ==> e in Raw(s, id)
  {
    RemovalSelects(Get(s, id, now, []), 0.0, now - win);
    if id in s && now > s[id].expires {
      ExpiredDecodes(s[id].value, now, win);
    } else {
      RemovalDecodes(Raw(s, id), now, win);
    }
  }

  /** Where ties put the new member does not show in the bag. */
  lemma {:induction false} InsertBag(z: ZSet, e: Entry, now: real, win: real)
    ensures multiset(Recent(Decoded(Insert(z, e)), now, win)) ==
            multiset(Recent(Decoded(z), now, win)) + multiset(Recent([Decode(e)], now, win))
  {
    if z == [] || Before(e, z[0]) {
      assert ([e] + z)[1..] == z;
      RecentOfSum([Decode(e)], Decoded(z), now, win);
    } else {
      InsertBag(z[1..], e, now, win);
      assert ([z[0]] + Insert(z[1..], e))[1..] == Insert(z[1..], e);
      RecentOfSum([Decode(z[0])], Decoded(z[1..]), now, win);
      RecentOfSum([Decode(z[0])], Decoded(Insert(z[1..], e)), now, win);
    }
  }

  lemma MemberIsNew(z: ZSet, used: set<string>, v: Verdict, token: string)
    requires |token| == TOKEN_LENGTH && token !in used
    requires forall e :: e in z ==> TokenOf(e.member) in used
    ensures TokenOf(Member(v.weight, v.flags, token)) == token
    ensures Without(z, Member(v.weight, v.flags, token)) == z
  {
    var m := Member(v.weight, v.flags, token);
    assert m[|m| - TOKEN_LENGTH..] == token;
    WithoutAbsent(z, m);
  }

  lemma MemberDecodes(v: Verdict, now: real, token: string)
    requires Writable(v.flags)
    ensures Decode(Entry(now, Member(v.weight, v.flags, token))) == Event(now, v.weight, v.flags)
  {
    WeightRoundTrip(v.weight, v.flags, token);
    FlagsRoundTrip(v.weight, v.flags, token);
  }

  /** What one call adds to the bag of the events that are recent at a later time. */
  lemma RecordBag(s: Server, id: string, used: set<string>, v: Verdict, t: real, token: string, now: real, win: real)
    requires KeyOk(s, id, used, win) && t <= now && win >= 0.0
    requires Writable(v.flags) && (v.suspicious ==> |token| == TOKEN_LENGTH && token !in used)
    ensures multiset(Recent(Decoded(Raw(RecordScript(s, id, v, t, token, win).0, id)), now, win)) ==
            multiset(Recent(Decoded(Raw(s, id)), now, win)) +
                multiset(Recent(NewEvent(RecordRun(id, v, t), id), now, win))
  {
    var z := Pruned(s, id, t, win);
    PrunedDecodes(s, id, used, t, win);
    RecentOfRecent(Decoded(Raw(s, id)), t, now, win);
    if v.suspicious {
      MemberIsNew(z, used, v, token);
      MemberDecodes(v, t, token);
      InsertBag(z, Entry(t, Member(v.weight, v.flags, token)), now, win);
    }
  }

  lemma RecordKeepsKey(s: Server, id: string, used: set<string>, v: Verdict, t: real, token: string, win: real)
    requires KeyOk(s, id, used, win) && win >= 0.0 && 0.0 <= t
    requires v.suspicious ==> |token| == TOKEN_LENGTH && token !in used
    requires forall e :: e in Raw(s, id) ==> e.score <= t
    ensures KeyOk(RecordScript(s, id, v, t, token, win).0, id, used + {token}, win)
    ensures forall e :: e in Raw(RecordScript(s, id, v, t, token, win).0, id) ==> e.score <= t
  {
    var z := Pruned(s, id, t, win);
    PrunedDecodes(s, id, used, t, win);
    if v.suspicious {
      MemberIsNew(z, used, v, token);
      InsertMembers(z, Entry(t, Member(v.weight, v.flags, token)));
    }
  }

  lemma LastCall(p: seq<Call>, call: Call, now: real)
    requires WellTimed(p + [call], now)
    ensures WellTimed(p, now) && 0.0 <= call.now <= now && WellTimed(p, call.now)
    ensures call.RecordCall? ==> call.token !in Tokens(p) && Writable(call.v.flags) && |call.token| == TOKEN_LENGTH
    ensures Tokens(p + [call]) == if call.RecordCall? then Tokens(p) + {call.token} else Tokens(p)
  {
    var all := p + [call];
    assert forall i :: 0 <= i < |p| ==> all[i] == p[i];
    assert all[|p|] == call;
  }

  /** In every interleaving, the entries of a key that are recent at any later time are, as a bag, the
      suspicious verdicts recorded for its identity less than a window before. */
  lemma {:induction false} KeyIsRecentHistory(calls: seq<Call>, id: string, now: real, win: real)
    requires WellTimed(calls, now) && win >= 0.0
    ensures KeyOk(Serve(calls, win), id, Tokens(calls), win)
    ensures forall e :: e in Raw(Serve(calls, win), id) ==> e.score <= now
    ensures multiset(Recent(Decoded(Raw(Serve(calls, win), id)), now, win)) ==
            multiset(Recent(History(Ops(calls), id), now, win))
  {
    if calls != [] {
      var p, call := calls[..|calls| - 1], calls[|calls| - 1];
      assert p + [call] == calls;
      LastCall(p, call, now);
      KeyIsRecentHistory(p, id, call.now, win);
      KeyIsRecentHistory(p, id, now, win);
      HistorySnoc(p, call, id, now, win);
      BagAfterCall(Serve(p, win), call, id, Tokens(p), now, win);
      KeyAfterCall(Serve(p, win), call, id, Tokens(p), now, win);
    }
  }

  lemma HistorySnoc(p: seq<Call>, call: Call, id: string, now: real, win: real)
    ensures multiset(Recent(History(Ops(p + [call]), id), now, win)) ==
            multiset(Recent(History(Ops(p), id), now, win)) + multiset(Recent(NewEvent(InMemory(call), id), now, win))
  {
    assert (p + [call])[..|p|] == p;
    var ops := Ops(p + [call]);
    assert ops[..|ops| - 1] == Ops(p);
    RecentOfSum(History(Ops(p), id), NewEvent(InMemory(call), id), now, win);
  }

  function TokensAfter(used: set<string>, call: Call): set<string> {
    if call.RecordCall? then used + {call.token} else used
  }

  ghost predicate Admissible(call: Call, used: set<string>) {
    call.RecordCall? ==> call.token !in used && Writable(call.v.flags) && |call.token| == TOKEN_LENGTH
  }

  lemma BagAfterCall(s: Server, call: Call, id: string, used: set<string>, now: real, win: real)
    requires KeyOk(s, id, used, win) && win >= 0.0 && call.now <= now && Admissible(call, used)
    ensures multiset(Recent(Decoded(Raw(Apply(s, call, win), id)), now, win)) ==
            multiset(Recent(Decoded(Raw(s, id)), now, win)) + multiset(Recent(NewEvent(InMemory(call), id), now, win))
  {
    var e := NewEvent(InMemory(call), id);
    if call.id != id {
      OtherKey(s, call, id, win);
      assert e == [];
    } else if call.RecordCall? {
      RecordBag(s, id, used, call.v, call.now, call.token, now, win);
    } else {
      RecordBag(s, id, used, Verdict(false, [], 0), call.now, "", now, win);
      assert e == [] && NewEvent(RecordRun(id, Verdict(false, [], 0), call.now), id) == [];
    }
  }

  lemma OtherKey(s: Server, call: Call, id: string, win: real)
    requires call.id != id
    ensures Raw(Apply(s, call, win), id) == Raw(s, id)
  {
  }

  lemma KeyAfterCall(s: Server, call: Call, id: string, used: set<string>, now: real, win: real)
    requires KeyOk(s, id, used, win) && win >= 0.0 && 0.0 <= call.now <= now && Admissible(call, used)
    requires forall e :: e in Raw(s, id) ==> e.score <= call.now
    ensures KeyOk(Apply(s, call, win), id, TokensAfter(used, call), win)
    ensures forall e :: e in Raw(Apply(s, call, win), id) ==> e.score <= now
  {
    if call.id == id {
      if call.RecordCall? {
        RecordKeepsKey(s, id, used, call.v, call.now, call.token, win);
      } else {
        PrunedDecodes(s, id, used, call.now, win);
      }
    }
  }

  lemma ScriptScore(s: Server, id: string, used: set<string>, v: Verdict, now: real, token: string, win: real)
    requires KeyOk(s, id, used, win) && |token| == TOKEN_LENGTH && token !in used
    ensures RecordScript(s, id, v, now, token, win).1 ==
            Score(Decoded(Pruned(s, id, now, win))) + if v.suspicious then v.weight else 0
  {
    var z := Pruned(s, id, now, win);
    DecodedLength(z);
    PrunedDecodes(s, id, used, now, win);
    if v.suspicious {
      MemberIsNew(z, used, v, token);
      WeightRoundTrip(v.weight, v.flags, token);
      InsertWeight(z, Entry(now, Member(v.weight, v.flags, token)));
    }
  }

  /** What pruning leaves of a key of Redis is, up to order, what it leaves of the in-memory deque. */
  lemma SharedBag(calls: seq<Call>, id: string, now: real, win: real)
    requires WellTimed(calls, now) && win >= 0.0
    ensures multiset(Decoded(Pruned(Serve(calls, win), id, now, win))) ==
            multiset(Live(Window(Run(Ops(calls), win), id), now, win))
  {
    KeyIsRecentHistory(calls, id, now, win);
    OpsAreClocked(calls, now);
    WindowIsRecentHistory(Ops(calls), id, now, win);
    PrunedDecodes(Serve(calls, win), id, Tokens(calls), now, win);
  }

  /** Recording through Redis, from any nodes in any order, returns the score one in-memory tracker would. */
  lemma SharedScoreActsAsOne(calls: seq<Call>, id: string, v: Verdict, now: real, token: string, win: real)
    requires WellTimed(calls + [RecordCall(id, v, now, token)], now) && win >= 0.0
    ensures RecordScript(Serve(calls, win), id, v, now, token, win).1 ==
            RecordStep(Run(Ops(calls), win), id, v, now, win).1
  {
    LastCall(calls, RecordCall(id, v, now, token), now);
    SharedBag(calls, id, now, win);
    KeyIsRecentHistory(calls, id, now, win);
    ScoresAgree(Serve(calls, win), Run(Ops(calls), win), id, Tokens(calls), v, now, token, win);
  }

  lemma ScoresAgree(s: Server, t: Tracker, id: string, used: set<string>, v: Verdict, now: real, token: string,
      win: real)
    requires KeyOk(s, id, used, win) && |token| == TOKEN_LENGTH && token !in used
    requires multiset(Decoded(Pruned(s, id, now, win))) == multiset(Live(Window(t, id), now, win))
    ensures RecordScript(s, id, v, now, token, win).1 == RecordStep(t, id, v, now, win).1
  {
    ScriptScore(s, id, used, v, now, token, win);
    ScorePermutes(Decoded(Pruned(s, id, now, win)), Live(Window(t, id), now, win), "");
    WindowAfter(t, RecordRun(id, v, now), id, win);
    ScoreOfSum(Live(Window(t, id), now, win), NewEvent(RecordRun(id, v, now), id));
  }

  /** So does the report: it lists the same identities, and has the same line for each. */
  lemma SharedReportActsAsOne(calls: seq<Call>, id: string, now: real, win: real, threshold: int)
    requires WellTimed(calls, now) && win >= 0.0
    ensures Pruned(Serve(calls, win), id, now, win) != [] <==> Live(Window(Run(Ops(calls), win), id), now, win) != []
    ensures SummaryOf(Decoded(Pruned(Serve(calls, win), id, now, win)), threshold) ==
            SummaryOf(Live(Window(Run(Ops(calls), win), id), now, win), threshold)
  {
    SharedBag(calls, id, now, win);
    DecodedLength(Pruned(Serve(calls, win), id, now, win));
    var z, w := Decoded(Pruned(Serve(calls, win), id, now, win)), Live(Window(Run(Ops(calls), win), id), now, win);
    assert |multiset(z)| == |z| && |multiset(w)| == |w|;
    SummaryPermutes(Decoded(Pruned(Serve(calls, win), id, now, win)),
        Live(Window(Run(Ops(calls), win), id), now, win), threshold);
  }

  lemma {:induction false} InsertWeight(z: ZSet, e: Entry)
    ensures WeightTotal(Insert(z, e)) == WeightTotal(z) + LuaWeight(e.member)
  {
    if z == [] || Before(e, z[0]) {
      assert ([e] + z)[1..] == z;
    } else {
      InsertWeight(z[1..], e);
      assert ([z[0]] + Insert(z[1..], e))[1..] == Insert(z[1..], e);
    }
  }

  lemma {:induction false} OpsAreClocked(calls: seq<Call>, now: real)
    requires WellTimed(calls, now)
    ensures |Ops(calls)| == |calls| && Clocked(Ops(calls), now)
    ensures forall i :: 0 <= i < |calls| ==> Ops(calls)[i].now == calls[i].now
  {
    if calls != [] {
      OpsAreClocked(calls[..|calls| - 1], now);
    }
  }
}
