/** The decoder of Utf8 against an encoder written from RFC 3629, section 3. */
module Utf8Encoding {
  import opened Output
  import opened Utf8

  predicate Scalar(c: int) { 0 <= c < 0xD800 || 0xE000 <= c < 0x110000 }

  function Encode(c: int): (s: seq<byte>)
    requires Scalar(c)
    ensures 1 <= |s| <= 4
  {
    if c < 0x80 then [c]
    else if c < 0x800 then [0xC0 + c / 0x40, 0x80 + c % 0x40]
    else if c < 0x10000 then [0xE0 + c / 0x1000, 0x80 + c / 0x40 % 0x40, 0x80 + c % 0x40]
    else [0xF0 + c / 0x40000, 0x80 + c / 0x1000 % 0x40, 0x80 + c / 0x40 % 0x40, 0x80 + c % 0x40]
  }

  predicate AllScalar(cs: seq<int>) { forall i :: 0 <= i < |cs| ==> Scalar(cs[i]) }

  function EncodeAll(cs: seq<int>): seq<byte>
    requires AllScalar(cs)
  {
    if cs == [] then [] else Encode(cs[0]) + EncodeAll(cs[1..])
  }

  /** s begins with a whole character. */
  predicate Whole(s: seq<byte>) { s != [] && Match(s) == Need(s[0]) }

  lemma ShiftTwo(c: int)
    requires 0 <= c
    ensures c / 0x40 / 0x40 == c / 0x1000 && c / 0x1000 / 0x40 == c / 0x40000
    ensures c == c / 0x40 * 0x40 + c % 0x40
  {
  }

  lemma EncodedFits(c: int)
    requires Scalar(c)
    ensures var s := Encode(c);
            && Need(s[0]) == |s| && CodePoint(s) == c
            && forall k :: 1 <= k < |s| ==> Fits(s, k)
  {
    ShiftTwo(c);
  }

  lemma FitsAlike(s: seq<byte>, t: seq<byte>, k: nat)
    requires 1 <= k < |s| && k < |t| && s[..k + 1] == t[..k + 1]
    ensures Fits(s, k) == Fits(t, k)
  {
    assert s[0] == s[..k + 1][0] && t[0] == t[..k + 1][0];
    assert s[k] == s[..k + 1][k] && t[k] == t[..k + 1][k];
    assert k == 1 ==> s[1] == t[1];
  }

  lemma {:induction false} ExtendsTo(s: seq<byte>, k: nat, n: nat)
    requires 1 <= k <= n <= |s| && n == Need(s[0])
    requires forall i :: k <= i < n ==> Fits(s, i)
    ensures Extend(s, k) == n
    decreases n - k
  {
    if k < n {
      assert Fits(s, k);
      ExtendsTo(s, k + 1, n);
    }
  }

  /** An encoded character is decoded to itself, whatever comes after it. */
  lemma EncodedIsDecoded(c: int, rest: seq<byte>)
    requires Scalar(c)
    ensures var s := Encode(c) + rest;
            && Match(s) == |Encode(c)| && Whole(s) && First(s) == c
            && s[Match(s)..] == rest
  {
    var e, s := Encode(c), Encode(c) + rest;
    EncodedFits(c);
    forall i | 1 <= i < |e| ensures Fits(s, i) {
      assert Fits(e, i) && s[..i + 1] == e[..i + 1];
      FitsAlike(s, e, i);
    }
    ExtendsTo(s, 1, |e|);
    assert s[..|e|] == e;
  }

  /** Decoding undoes the encoder, and what the encoder writes is valid. */
  lemma {:induction false} DecodeUndoesEncode(cs: seq<int>)
    requires AllScalar(cs)
    ensures Decode(EncodeAll(cs)) == cs && Valid(EncodeAll(cs))
  {
    if cs != [] {
      EncodedIsDecoded(cs[0], EncodeAll(cs[1..]));
      DecodeUndoesEncode(cs[1..]);
    }
  }

  lemma {:induction false} ExtendFits(s: seq<byte>, k: nat, i: nat)
    requires 1 <= k <= |s| && k <= i < Extend(s, k)
    ensures i < |s| && Fits(s, i)
    decreases |s| - k
  {
    if i > k {
      ExtendFits(s, k + 1, i);
    }
  }

  lemma MatchFits(s: seq<byte>)
    requires s != []
    ensures forall i :: 1 <= i < Match(s) ==> Fits(s, i)
  {
    forall i | 1 <= i < Match(s) ensures Fits(s, i) {
      ExtendFits(s, 1, i);
    }
  }

  /** The bytes of a whole character are those the encoder writes for it. */
  lemma WholeIsEncoded(e: seq<byte>)
    requires 1 <= |e| <= 4 && Need(e[0]) == |e| && forall k :: 1 <= k < |e| ==> Fits(e, k)
    ensures Scalar(CodePoint(e)) && Encode(CodePoint(e)) == e
  {
    if |e| == 2 {
      assert Fits(e, 1);
      TwoBytes(e[0], e[1]);
      assert e == [e[0], e[1]];
    } else if |e| == 3 {
      assert Fits(e, 1) && Fits(e, 2);
      ThreeBytes(e[0], e[1], e[2]);
      assert e == [e[0], e[1], e[2]];
    } else if |e| == 4 {
      assert Fits(e, 1) && Fits(e, 2) && Fits(e, 3);
      FourBytes(e[0], e[1], e[2], e[3]);
      assert e == [e[0], e[1], e[2], e[3]];
    }
  }

  lemma TwoBytes(a: byte, b: byte)
    requires 0xC2 <= a < 0xE0 && Continues(b)
    ensures var c := CodePoint([a, b]); Scalar(c) && Encode(c) == [a, b]
  {
    var c := CodePoint([a, b]);
    assert c == (a - 0xC0) * 0x40 + (b - 0x80) && c / 0x40 == a - 0xC0 && c % 0x40 == b - 0x80;
  }

  lemma ThreeBytes(a: byte, b: byte, d: byte)
    requires 0xE0 <= a < 0xF0 && SecondFits(a, b) && Continues(d)
    ensures var c := CodePoint([a, b, d]); Scalar(c) && Encode(c) == [a, b, d]
  {
    var c, h := CodePoint([a, b, d]), (a - 0xE0) * 0x40 + (b - 0x80);
    ShiftTwo(c);
    assert c == h * 0x40 + (d - 0x80) && c / 0x40 == h && c % 0x40 == d - 0x80;
    assert h / 0x40 == a - 0xE0 && h % 0x40 == b - 0x80;
  }

  lemma FourBytes(a: byte, b: byte, d: byte, e: byte)
    requires 0xF0 <= a < 0xF5 && SecondFits(a, b) && Continues(d) && Continues(e)
    ensures var c := CodePoint([a, b, d, e]); Scalar(c) && Encode(c) == [a, b, d, e]
  {
    var c := CodePoint([a, b, d, e]);
    var h := (a - 0xF0) * 0x40 + (b - 0x80);
    var g := h * 0x40 + (d - 0x80);
    ShiftTwo(c);
    assert c == g * 0x40 + (e - 0x80) && c / 0x40 == g && c % 0x40 == e - 0x80;
    assert g / 0x40 == h && g % 0x40 == d - 0x80;
    assert h / 0x40 == a - 0xF0 && h % 0x40 == b - 0x80;
  }

  /** The character at the front of s and the bytes the encoder writes for it. */
  lemma FirstIsEncoded(s: seq<byte>)
    requires Whole(s)
    ensures First(s) == CodePoint(s[..Match(s)]) && Scalar(First(s)) && Encode(First(s)) == s[..Match(s)]
  {
    var e := s[..Match(s)];
    MatchFits(s);
    forall k | 1 <= k < |e| ensures Fits(e, k) {
      assert Fits(s, k) && s[..k + 1] == e[..k + 1];
      FitsAlike(s, e, k);
    }
    WholeIsEncoded(e);
  }

  lemma EncodedInFront(s: seq<byte>, cs: seq<int>)
    requires Whole(s) && AllScalar(cs) && EncodeAll(cs) == s[Match(s)..]
    ensures AllScalar([First(s)] + cs) && EncodeAll([First(s)] + cs) == s
  {
    FirstIsEncoded(s);
    assert ([First(s)] + cs)[1..] == cs;
    assert s == s[..Match(s)] + s[Match(s)..];
  }

  /** The encoder undoes decoding on valid input: so the valid sequences are exactly those it writes. */
  lemma {:induction false} EncodeUndoesDecode(s: seq<byte>)
    requires Valid(s)
    ensures AllScalar(Decode(s)) && EncodeAll(Decode(s)) == s
  {
    if s != [] {
      var cs := Decode(s[Match(s)..]);
      EncodeUndoesDecode(s[Match(s)..]);
      EncodedInFront(s, cs);
    }
  }

  lemma EncodedIsWhole(s: seq<byte>, c: int)
    requires Scalar(c) && Encode(c) <= s
    ensures Whole(s)
  {
    assert s == Encode(c) + s[|Encode(c)|..];
    EncodedIsDecoded(c, s[|Encode(c)|..]);
  }

  /** Where no character begins, U+FFFD stands for the longest run of bytes that begins one, or for one byte. */
  lemma ReplacementIsMaximal(s: seq<byte>)
    requires s != [] && !Whole(s)
    ensures First(s) == 0xFFFD
    ensures forall c :: Scalar(c) ==> !(Encode(c) <= s)
    ensures Match(s) < |s| ==> forall c :: Scalar(c) ==> !(s[..Match(s) + 1] <= Encode(c))
  {
    forall c | Scalar(c) && Encode(c) <= s ensures false {
      EncodedIsWhole(s, c);
    }
    if Match(s) < |s| {
      forall c | Scalar(c) ensures !(s[..Match(s) + 1] <= Encode(c)) {
        NoLongerRun(s, c);
      }
    }
  }

  lemma NoLongerRun(s: seq<byte>, c: int)
    requires s != [] && !Whole(s) && Match(s) < |s| && Scalar(c)
    ensures !(s[..Match(s) + 1] <= Encode(c))
  {
    var e, m := Encode(c), Match(s);
    EncodedFits(c);
    if s[..m + 1] <= e {
      assert s[..m + 1] == e[..m + 1] && s[0] == s[..m + 1][0] && e[0] == e[..m + 1][0];
      assert Fits(e, m);
      FitsAlike(s, e, m);
      ExtendStops(s, 1);
    }
  }

  lemma {:induction false} ExtendStops(s: seq<byte>, k: nat)
    requires 1 <= k <= |s| && Extend(s, k) < |s|
    ensures Extend(s, k) >= Need(s[0]) || !Fits(s, Extend(s, k))
    decreases |s| - k
  {
    if k < Need(s[0]) && Fits(s, k) {
      ExtendStops(s, k + 1);
    }
  }
}
