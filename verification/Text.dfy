/** Strings as sequences of characters: decimal numbers, join and split. */
module Text {

  function Digit(d: nat): char
    requires d < 10
  {
    ('0' as int + d) as char
  }

  predicate IsDigit(c: char) { '0' <= c <= '9' }

  predicate AllDigits(s: string) { forall i :: 0 <= i < |s| ==> IsDigit(s[i]) }

  /** str(n) */
  function Print(n: nat): string {
    if n < 10 then [Digit(n)] else Print(n / 10) + [Digit(n % 10)]
  }

  /** int(s) for a string of digits */
  function Value(s: string): nat
    requires AllDigits(s)
  {
    if s == [] then 0 else 10 * Value(s[..|s| - 1]) + (s[|s| - 1] as int - '0' as int)
  }

  lemma {:induction false} ValueOfPrint(n: nat)
    ensures Print(n) != [] && AllDigits(Print(n)) && Value(Print(n)) == n
  {
    if n < 10 {
      assert Print(n)[..0] == [];
    } else {
      ValueOfPrint(n / 10);
      assert Print(n)[..|Print(n)| - 1] == Print(n / 10);
    }
  }

  lemma PrintIsInjective(m: nat, n: nat)
    requires Print(m) == Print(n)
    ensures m == n
  {
    ValueOfPrint(m);
    ValueOfPrint(n);
  }

  /** What the Lua pattern ^(%d+) captures. */
  function LeadingDigits(s: string): (d: string)
    ensures AllDigits(d)
  {
    if s != [] && IsDigit(s[0]) then [s[0]] + LeadingDigits(s[1..]) else []
  }

  lemma {:induction false} LeadingDigitsStop(d: string, rest: string)
    requires AllDigits(d) && (rest == [] || !IsDigit(rest[0]))
    ensures LeadingDigits(d + rest) == d
  {
    if d == [] {
      assert d + rest == rest;
    } else {
      LeadingDigitsStop(d[1..], rest);
      assert (d + rest)[1..] == d[1..] + rest;
    }
  }

  /** s.lower(), for ASCII letters */
  function Lower(s: string): string {
    if s == [] then []
    else [if 'A' <= s[0] <= 'Z' then (s[0] as int + 32) as char else s[0]] + Lower(s[1..])
  }

  /** marker in s */
  predicate Contains(s: string, marker: string) { marker <= s || (s != [] && Contains(s[1..], marker)) }

  /** marker stands at index i of s. */
  predicate StandsAt(s: string, marker: string, i: nat) { i + |marker| <= |s| && s[i..i + |marker|] == marker }

  /** Wherever it stands. */
  lemma {:induction false} ContainsExactly(s: string, marker: string)
    ensures Contains(s, marker) <==> exists i: nat :: StandsAt(s, marker, i)
  {
    if marker <= s {
      assert StandsAt(s, marker, 0);
    } else if s == [] {
      assert |marker| > 0;
    } else {
      assert !StandsAt(s, marker, 0) by { assert |marker| <= |s| ==> s[0..|marker|] == s[..|marker|]; }
      ContainsExactly(s[1..], marker);
      forall i: nat ensures StandsAt(s[1..], marker, i) == StandsAt(s, marker, i + 1) {
        if i + |marker| <= |s| - 1 {
          assert s[1..][i..i + |marker|] == s[i + 1..i + 1 + |marker|];
        }
      }
      forall i: nat | StandsAt(s, marker, i) && i > 0 ensures StandsAt(s[1..], marker, i - 1) {
        assert StandsAt(s[1..], marker, i - 1) == StandsAt(s, marker, i - 1 + 1);
      }
    }
  }

  /** lower() changes the letters A to Z, each to its small letter, and nothing else. */
  lemma {:induction false} LowerIsPointwise(s: string)
    ensures |Lower(s)| == |s|
    ensures forall i :: 0 <= i < |s| ==>
              Lower(s)[i] == if 'A' <= s[i] <= 'Z' then (s[i] as int - 'A' as int + 'a' as int) as char else s[i]
  {
    if s != [] {
      LowerIsPointwise(s[1..]);
    }
  }

  predicate ContainsAny(s: string, markers: seq<string>) {
    exists k :: 0 <= k < |markers| && Contains(s, markers[k])
  }

  /** One of the markers stands somewhere in s. */
  ghost predicate AnyStands(s: string, markers: seq<string>) {
    exists m: nat, i: nat :: m < |markers| && StandsAt(s, markers[m], i)
  }

  lemma ContainsAnyExactly(s: string, markers: seq<string>)
    ensures ContainsAny(s, markers) <==> AnyStands(s, markers)
  {
    forall m: nat | m < |markers| ensures Contains(s, markers[m]) <==> exists i: nat :: StandsAt(s, markers[m], i) {
      ContainsExactly(s, markers[m]);
    }
  }

  predicate Free(s: string, sep: char) { sep !in s }

  predicate AllFree(parts: seq<string>, sep: char) {
    forall i :: 0 <= i < |parts| ==> Free(parts[i], sep)
  }

  /** sep.join(parts) */
  function Join(parts: seq<string>, sep: char): string {
    if parts == [] then ""
    else if |parts| == 1 then parts[0]
    else parts[0] + [sep] + Join(parts[1..], sep)
  }

  /** s.split(sep): always at least one piece */
  function Split(s: string, sep: char): (parts: seq<string>)
    ensures parts != []
  {
    if s == [] then [""]
    else if s[0] == sep then [""] + Split(s[1..], sep)
    else var rest := Split(s[1..], sep); [[s[0]] + rest[0]] + rest[1..]
  }

  lemma {:induction false} SplitOff(a: string, b: string, sep: char)
    requires Free(a, sep)
    ensures Split(a + [sep] + b, sep) == [a] + Split(b, sep)
  {
    if a == [] {
      assert (a + [sep] + b)[1..] == b;
    } else {
      SplitOff(a[1..], b, sep);
      assert (a + [sep] + b)[1..] == a[1..] + [sep] + b;
      assert ([a[1..]] + Split(b, sep))[1..] == Split(b, sep);
      assert a[0] in a && [a[0]] + a[1..] == a;
    }
  }

  lemma {:induction false} SplitFree(a: string, sep: char)
    requires Free(a, sep)
    ensures Split(a, sep) == [a]
  {
    if a != [] {
      SplitFree(a[1..], sep);
      assert a[0] in a && [a[0]] + a[1..] == a;
    }
  }

  lemma {:induction false} SplitOfJoin(parts: seq<string>, sep: char)
    requires AllFree(parts, sep) && parts != []
    ensures Split(Join(parts, sep), sep) == parts
  {
    assert parts == [parts[0]] + parts[1..];
    if |parts| == 1 {
      SplitFree(parts[0], sep);
    } else {
      SplitOfJoin(parts[1..], sep);
      SplitOff(parts[0], Join(parts[1..], sep), sep);
    }
  }

  lemma {:induction false} JoinOfSplit(s: string, sep: char)
    ensures Join(Split(s, sep), sep) == s
  {
    if s != [] {
      JoinOfSplit(s[1..], sep);
    }
  }

  /** No piece contains the separator, nor any character the whole does not. */
  lemma {:induction false} PiecesAreFree(s: string, sep: char, c: char)
    requires c == sep || Free(s, c)
    ensures AllFree(Split(s, sep), c)
  {
    if s != [] {
      PiecesAreFree(s[1..], sep, c);
    }
  }

  lemma {:induction false} JoinIsFree(parts: seq<string>, sep: char, c: char)
    requires c != sep && AllFree(parts, c)
    ensures Free(Join(parts, sep), c)
  {
    if |parts| > 1 {
      JoinIsFree(parts[1..], sep, c);
    }
  }
}
