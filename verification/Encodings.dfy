/** The two places where a list of flags is flattened to text: the store's flags column
    (app/store.py) and the members of the abuse tracker's sorted sets (app/backends.py). */
module Encodings {
  import opened Text

  /** [f for f in pieces if f] */
  function NonEmpty(pieces: seq<string>): seq<string> {
    if pieces == [] then []
    else (if pieces[0] != "" then [pieces[0]] else []) + NonEmpty(pieces[1..])
  }

  function SaveFlags(flags: seq<string>): string { Join(flags, ',') }

  function LoadFlags(text: string): seq<string> { NonEmpty(Split(text, ',')) }

  lemma {:induction false} NonEmptyKeeps(pieces: seq<string>)
    requires "" !in pieces
    ensures NonEmpty(pieces) == pieces
  {
    if pieces != [] {
      NonEmptyKeeps(pieces[1..]);
    }
  }

  lemma {:induction false} NonEmptySelects(pieces: seq<string>)
    ensures forall i :: 0 <= i < |NonEmpty(pieces)| ==> NonEmpty(pieces)[i] in pieces && NonEmpty(pieces)[i] != ""
  {
    if pieces != [] {
      NonEmptySelects(pieces[1..]);
    }
  }

  /** The store gives back exactly the lists whose flags are non-empty and free of commas, the empty
      list among them. */
  lemma StoreRoundTrip(flags: seq<string>)
    ensures LoadFlags(SaveFlags(flags)) == flags <==> "" !in flags && AllFree(flags, ',')
  {
    var text := SaveFlags(flags);
    PiecesAreFree(text, ',', ',');
    NonEmptySelects(Split(text, ','));
    if "" !in flags && AllFree(flags, ',') {
      if flags != [] {
        SplitOfJoin(flags, ',');
        NonEmptyKeeps(flags);
      }
    }
  }

  /** weight|flag1,flag2|token */
  function Member(weight: nat, flags: seq<string>, token: string): string {
    Print(weight) + ['|'] + (Join(flags, ',') + ['|'] + token)
  }

  /** tonumber(string.match(m, '^(%d+)')) */
  function LuaWeight(m: string): nat { Value(LeadingDigits(m)) }

  function PythonWeightText(m: string): string { Split(m, '|')[0] }

  /** What int(parts[0]) accepts without surprises: digits only. */
  predicate Readable(m: string) { PythonWeightText(m) != "" && AllDigits(PythonWeightText(m)) }

  /** int(parts[0]) */
  function PythonWeight(m: string): nat
    requires Readable(m)
  {
    Value(PythonWeightText(m))
  }

  /** parts[1].split(",") if len(parts) > 1 and parts[1] else [] */
  function PythonFlags(m: string): seq<string> {
    var parts := Split(m, '|');
    if |parts| > 1 && parts[1] != "" then Split(parts[1], ',') else []
  }

  /** Both readers recover the weight, whatever the flags and the token are. */
  lemma WeightRoundTrip(weight: nat, flags: seq<string>, token: string)
    ensures LuaWeight(Member(weight, flags, token)) == weight
    ensures Readable(Member(weight, flags, token)) && PythonWeight(Member(weight, flags, token)) == weight
  {
    var rest := Join(flags, ',') + ['|'] + token;
    ValueOfPrint(weight);
    LeadingDigitsStop(Print(weight), ['|'] + rest);
    assert Member(weight, flags, token) == Print(weight) + (['|'] + rest);
    SplitOff(Print(weight), rest, '|');
  }

  lemma {:induction false} FirstPiece(s: string, sep: char)
    ensures Split(s, sep)[0] <= s && (|Split(s, sep)[0]| < |s| ==> s[|Split(s, sep)[0]|] == sep)
  {
    if s != [] && s[0] != sep {
      FirstPiece(s[1..], sep);
      assert Split(s, sep)[0] == [s[0]] + Split(s[1..], sep)[0];
    }
  }

  /** Where int(parts[0]) reads a number, the Lua pattern reads the same, whoever wrote the member. */
  lemma ReadersAgree(m: string)
    requires Readable(m)
    ensures LuaWeight(m) == PythonWeight(m)
  {
    var d := PythonWeightText(m);
    FirstPiece(m, '|');
    LeadingDigitsStop(d, m[|d|..]);
    assert m == d + m[|d|..];
  }

  /** The report recovers exactly the lists of flags free of comma and bar, except the list of one empty
      flag, which is written like the empty list. */
  lemma FlagsRoundTrip(weight: nat, flags: seq<string>, token: string)
    ensures PythonFlags(Member(weight, flags, token)) == flags <==>
            AllFree(flags, ',') && AllFree(flags, '|') && flags != [""]
  {
    var m, joined := Member(weight, flags, token), Join(flags, ',');
    ValueOfPrint(weight);
    SplitOff(Print(weight), joined + ['|'] + token, '|');
    var field := Split(m, '|')[1];
    PiecesAreFree(m, '|', '|');
    PiecesAreFree(field, ',', ',');
    PiecesAreFree(field, ',', '|');
    JoinOfSplit(field, ',');
    if AllFree(flags, ',') && AllFree(flags, '|') && flags != [""] {
      JoinIsFree(flags, ',', '|');
      SplitOff(joined, token, '|');
      if flags != [] {
        SplitOfJoin(flags, ',');
      }
    }
  }
}
