/** Text of a run. The one-shot path decodes what it collected in one piece, the live path each chunk by
    itself, both with errors="replace" (app/executor/runner.py). Well-formed sequences are those of
    RFC 3629, section 4; as in CPython, the longest run of bytes that could begin a character but does not
    complete one becomes a single U+FFFD. */
module Utf8 {
  import opened Options
  import opened Output
  import opened Sequences
  import opened StreamRuns

  const REPLACEMENT := 0xFFFD

  predicate Continues(b: byte) { 0x80 <= b < 0xC0 }

  /** How many bytes a character led by b has; 0 if none is. */
  function Need(b: byte): nat {
    if b < 0x80 then 1 else if 0xC2 <= b < 0xE0 then 2 else if 0xE0 <= b < 0xF0 then 3 else if 0xF0 <= b < 0xF5 then 4
        else 0
  }

  predicate SecondFits(lead: byte, b: byte) {
    Continues(b) &&
    (lead == 0xE0 ==> 0xA0 <= b) && (lead == 0xED ==> b < 0xA0) && (lead == 0xF0 ==> 0x90 <= b) &&
        (lead == 0xF4 ==> b < 0x90)
  }

  predicate Fits(s: seq<byte>, k: nat)
    requires 1 <= k < |s|
  {
    if k == 1 then SecondFits(s[0], s[1]) else Continues(s[k])
  }

  function Extend(s: seq<byte>, k: nat): (n: nat)
    requires 1 <= k <= |s|
    ensures k <= n <= |s| && (n <= Need(s[0]) || n == k)
    ensures forall i :: k <= i < n ==> Continues(s[i])
    decreases |s| - k
  {
    if k < Need(s[0]) && k < |s| && Fits(s, k) then Extend(s, k + 1) else k
  }

  /** How many bytes at the front go together. */
  function Match(s: seq<byte>): (n: nat)
    requires s != []
    ensures 1 <= n <= |s| && (n <= Need(s[0]) || n == 1)
    ensures forall i :: 1 <= i < n ==> Continues(s[i])
  {
    Extend(s, 1)
  }

  function Bits(b: byte, marker: int): int { b as int - marker }

  function CodePoint(c: seq<byte>): int
    requires 1 <= |c| <= 4
  {
    if |c| == 1 then c[0] as int
    else if |c| == 2 then Bits(c[0], 0xC0) * 0x40 + Bits(c[1], 0x80)
    else if |c| == 3 then Bits(c[0], 0xE0) * 0x1000 + Bits(c[1], 0x80) * 0x40 + Bits(c[2], 0x80)
    else Bits(c[0], 0xF0) * 0x40000 + Bits(c[1], 0x80) * 0x1000 + Bits(c[2], 0x80) * 0x40 + Bits(c[3], 0x80)
  }

  function First(s: seq<byte>): int
    requires s != []
  {
    if Match(s) == Need(s[0]) then CodePoint(s[..Match(s)]) else REPLACEMENT
  }

  function Decode(s: seq<byte>): seq<int> {
    if s == [] then [] else [First(s)] + Decode(s[Match(s)..])
  }

  /** The text the client puts together from the chunks. */
  function Joined(chunks: seq<seq<byte>>): seq<int> {
    if chunks == [] then [] else Joined(chunks[..|chunks| - 1]) + Decode(chunks[|chunks| - 1])
  }

  /** s is valid UTF-8. */
  predicate Valid(s: seq<byte>) {
    s == [] || (Match(s) == Need(s[0]) && Valid(s[Match(s)..]))
  }

  /** s is valid UTF-8, but for a last character that may be cut off: what a cap leaves of valid text. */
  predicate Cut(s: seq<byte>) {
    s == [] || (Need(s[0]) > 0 && (Match(s) == Need(s[0]) || Match(s) == |s|) && Cut(s[Match(s)..]))
  }

  /** Position p of s lies between characters. */
  predicate Between(s: seq<byte>, p: nat) {
    p == 0 || (s != [] && Match(s) <= p && Between(s[Match(s)..], p - Match(s)))
  }

  ghost predicate Aligned(chunks: seq<seq<byte>>) {
    forall i :: 0 <= i <= |chunks| ==> Between(Flatten(chunks), |Flatten(chunks[..i])|)
  }

  /** Bytes that are not continuation bytes. */
  function Leads(s: seq<byte>): nat {
    if s == [] then 0 else (if Continues(s[0]) then 0 else 1) + Leads(s[1..])
  }

  lemma MatchOfPrefix(s: seq<byte>, p: nat)
    requires s != [] && p <= |s| && Match(s) <= p
    ensures Match(s[..p]) == Match(s)
  {
    ExtendOfPrefix(s, p, 1);
  }

  /** A prefix goes together as far as it reaches. */
  lemma {:induction false} ExtendOfPrefix(s: seq<byte>, p: nat, k: nat)
    requires 1 <= k <= p <= |s|
    ensures Extend(s[..p], k) == if Extend(s, k) <= p then Extend(s, k) else p
    decreases p - k
  {
    if k < p && k < Need(s[0]) && Fits(s, k) {
      assert Fits(s[..p], k);
      ExtendOfPrefix(s, p, k + 1);
    }
  }

  lemma {:induction false} PrefixIsCut(s: seq<byte>, p: nat)
    requires Cut(s) && p <= |s|
    ensures Cut(s[..p])
  {
    if p > 0 {
      var m := Match(s);
      if m <= p {
        MatchOfPrefix(s, p);
        PrefixIsCut(s[m..], p - m);
        assert s[..p][m..] == s[m..][..p - m];
      } else {
        ExtendOfPrefix(s, p, 1);
      }
    }
  }

  lemma {:induction false} ValidIsCut(s: seq<byte>)
    requires Valid(s)
    ensures Cut(s)
  {
    if s != [] {
      ValidIsCut(s[Match(s)..]);
    }
  }

  lemma FirstOfPrefix(s: seq<byte>, p: nat)
    requires s != [] && Match(s) <= p <= |s|
    ensures Decode(s[..p]) == [First(s)] + Decode(s[Match(s)..][..p - Match(s)])
  {
    var m := Match(s);
    MatchOfPrefix(s, p);
    assert s[..p][m..] == s[m..][..p - m];
    assert s[..p][..m] == s[..m];
  }

  lemma DropDrop(s: seq<byte>, m: nat, p: nat)
    requires m <= p <= |s|
    ensures s[m..][p - m..] == s[p..]
  {
  }

  lemma SplitAfterFirst(s: seq<byte>, p: nat, t: seq<byte>)
    requires s != [] && Match(s) <= p <= |s| && t == s[Match(s)..]
    requires Decode(t) == Decode(t[..p - Match(s)]) + Decode(t[p - Match(s)..])
    ensures Decode(s) == Decode(s[..p]) + Decode(s[p..])
  {
    FirstOfPrefix(s, p);
    DropDrop(s, Match(s), p);
    Reassociate([First(s)], Decode(t[..p - Match(s)]), Decode(s[p..]));
  }

  lemma SplitAtZero(s: seq<byte>)
    ensures Decode(s) == Decode(s[..0]) + Decode(s[0..])
  {
    assert s[..0] == [] && s[0..] == s;
    assert [] + Decode(s) == Decode(s);
  }

  /** Cutting between characters cuts the text in two. */
  lemma {:induction false} DecodeSplits(s: seq<byte>, p: nat)
    requires p <= |s| && Between(s, p)
    ensures Decode(s) == Decode(s[..p]) + Decode(s[p..])
    decreases p
  {
    if p == 0 {
      SplitAtZero(s);
    } else {
      var t := s[Match(s)..];
      DecodeSplits(t, p - Match(s));
      SplitAfterFirst(s, p, t);
    }
  }

  lemma {:induction false} BetweenInPrefix(s: seq<byte>, p: nat, q: nat)
    requires q <= p <= |s| && Between(s, q)
    ensures Between(s[..p], q)
    decreases q
  {
    if q > 0 {
      var m := Match(s);
      MatchOfPrefix(s, p);
      BetweenInPrefix(s[m..], p - m, q - m);
      assert s[..p][m..] == s[m..][..p - m];
    }
  }

  lemma FlattenFront(chunks: seq<seq<byte>>, i: nat)
    requires i <= |chunks|
    ensures |Flatten(chunks[..i])| <= |Flatten(chunks)|
    ensures Flatten(chunks)[..|Flatten(chunks[..i])|] == Flatten(chunks[..i])
    decreases |chunks| - i
  {
    if i < |chunks| {
      FlattenFront(chunks, i + 1);
      assert chunks[..i + 1] == chunks[..i] + [chunks[i]];
    } else {
      assert chunks[..i] == chunks;
    }
  }

  lemma {:induction false} AlignedFront(chunks: seq<seq<byte>>)
    requires chunks != [] && Aligned(chunks)
    ensures Aligned(chunks[..|chunks| - 1])
  {
    var front := chunks[..|chunks| - 1];
    var p := |Flatten(front)|;
    FlattenFront(chunks, |front|);
    forall i | 0 <= i <= |front| ensures Between(Flatten(front), |Flatten(front[..i])|) {
      assert front[..i] == chunks[..i];
      FlattenFront(front, i);
      BetweenInPrefix(Flatten(chunks), p, |Flatten(chunks[..i])|);
    }
  }

  lemma {:induction false} AlignedJoins(chunks: seq<seq<byte>>)
    requires Aligned(chunks)
    ensures Joined(chunks) == Decode(Flatten(chunks))
  {
    if chunks != [] {
      var front := chunks[..|chunks| - 1];
      AlignedFront(chunks);
      AlignedJoins(front);
      FlattenFront(chunks, |front|);
      DecodeSplits(Flatten(chunks), |Flatten(front)|);
      assert Flatten(chunks)[|Flatten(front)|..] == chunks[|chunks| - 1];
    }
  }

  // ---------------------------------------------------------------- a cut character shows

  lemma {:induction false} LeadsOfSum(a: seq<byte>, b: seq<byte>)
    ensures Leads(a + b) == Leads(a) + Leads(b)
  {
    if a == [] {
      assert a + b == b;
    } else {
      LeadsOfSum(a[1..], b);
      assert (a + b)[1..] == a[1..] + b;
    }
  }

  lemma {:induction false} NoLeads(s: seq<byte>)
    requires forall i :: 0 <= i < |s| ==> Continues(s[i])
    ensures Leads(s) == 0
  {
    if s != [] {
      NoLeads(s[1..]);
    }
  }

  /** What goes together holds one lead at most, at its front. */
  lemma LeadsOfMatch(s: seq<byte>)
    requires s != []
    ensures Leads(s) == (if Continues(s[0]) then 0 else 1) + Leads(s[Match(s)..])
  {
    var m := Match(s);
    assert s[1..] == s[1..m] + s[m..];
    LeadsOfSum(s[1..m], s[m..]);
    NoLeads(s[1..m]);
  }

  /** A text is never shorter than its leads, and longer if it starts inside a character. */
  lemma {:induction false} DecodeLength(s: seq<byte>)
    ensures |Decode(s)| >= Leads(s) + if s != [] && Continues(s[0]) then 1 else 0
    ensures Cut(s) ==> |Decode(s)| == Leads(s)
  {
    if s != [] {
      LeadsOfMatch(s);
      DecodeLength(s[Match(s)..]);
    }
  }

  lemma {:induction false} JoinedLength(chunks: seq<seq<byte>>)
    ensures |Joined(chunks)| >= Leads(Flatten(chunks))
    ensures (exists i :: 0 <= i < |chunks| && chunks[i] != [] && Continues(chunks[i][0])) ==>
            |Joined(chunks)| > Leads(Flatten(chunks))
  {
    if chunks != [] {
      var front, last := chunks[..|chunks| - 1], chunks[|chunks| - 1];
      JoinedLength(front);
      DecodeLength(last);
      LeadsOfSum(Flatten(front), last);
      assert forall i :: 0 <= i < |front| ==> front[i] == chunks[i];
    }
  }

  /** Inside valid text, a position that is not between characters is at a continuation byte. */
  lemma {:induction false} BetweenOrInside(s: seq<byte>, p: nat)
    requires Cut(s) && p <= |s|
    ensures Between(s, p) || (p < |s| && Continues(s[p]))
    decreases p
  {
    if p > 0 && Match(s) <= p {
      BetweenOrInside(s[Match(s)..], p - Match(s));
    }
  }

  /** Joining the texts of the chunks gives the text of the whole exactly when every chunk ends between
      characters. */
  lemma JoinsExactlyWhenAligned(chunks: seq<seq<byte>>)
    requires Cut(Flatten(chunks)) && forall i :: 0 <= i < |chunks| ==> chunks[i] != []
    ensures Joined(chunks) == Decode(Flatten(chunks)) <==> Aligned(chunks)
  {
    var whole := Flatten(chunks);
    if Aligned(chunks) {
      AlignedJoins(chunks);
    } else {
      var i :| 0 <= i <= |chunks| && !Between(whole, |Flatten(chunks[..i])|);
      FlattenFront(chunks, i);
      BetweenOrInside(whole, |Flatten(chunks[..i])|);
      StartsInside(chunks, i);
      JoinedLength(chunks);
      DecodeLength(whole);
    }
  }

  lemma StartsInside(chunks: seq<seq<byte>>, i: nat)
    requires i <= |chunks| && |Flatten(chunks[..i])| < |Flatten(chunks)|
    requires i < |chunks| ==> chunks[i] != []
    ensures i < |chunks| && Flatten(chunks)[|Flatten(chunks[..i])|] == chunks[i][0]
  {
    assert chunks[..|chunks|] == chunks;
    if i < |chunks| {
      FlattenFront(chunks, i + 1);
      assert chunks[..i + 1] == chunks[..i] + [chunks[i]];
      var w, p := Flatten(chunks), |Flatten(chunks[..i])|;
      assert w[p] == w[..|Flatten(chunks[..i + 1])|][p];
    }
  }

  /** The text of a finished, untimed stream and that of the one-shot path, for a program that writes valid
      UTF-8: the same exactly when no chunk the pumps sent ends inside a character. */
  lemma StreamedTextIsOneShotText(j: Job, steps: seq<Step>, s: Stream, src: Source)
    requires After(j, Fresh(), steps) == Some(s) && Finishes in steps && Expires !in steps && Valid(Written(j, src))
    ensures Joined(Chunks(s.events, src)) == Decode(Capped(Written(j, src), j.cap)) <==> Aligned(Chunks(s.events, src))
  {
    StreamEqualsOneShot(j, steps, s);
    ValidIsCut(Written(j, src));
    PrefixIsCut(Written(j, src), CapLength(|Written(j, src)|, j.cap));
    ChunksAreNonEmpty(j, steps, s, src);
    JoinsExactlyWhenAligned(Chunks(s.events, src));
  }

  /** A two-byte character whose bytes come in two reads: the texts differ. */
  lemma SplitCharacterShows()
    ensures var chunks := [[0xC3 as byte], [0xA9 as byte]];
            Valid(Flatten(chunks)) && !Aligned(chunks) && Joined(chunks) != Decode(Flatten(chunks))
  {
    var a, b: byte := 0xC3, 0xA9;
    var chunks := [[a], [b]];
    assert chunks[..1] == [[a]] && [[a]][..0] == [];
    assert Flatten([[a]]) == [a];
    assert Flatten(chunks) == [a, b];
    assert Match([a, b]) == 2 && [a, b][2..] == [];
    assert Valid([a, b][2..]);
    assert !Between([a, b], |Flatten(chunks[..1])|);
    ValidIsCut([a, b]);
    JoinsExactlyWhenAligned(chunks);
  }
}
