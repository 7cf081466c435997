/** The pieces of `java.lang.String`, `Long` and `Integer` the CSV importer
    relies on: `trim`, `split("\\|")`, `toLowerCase`/`equalsIgnoreCase`
    (ASCII letters only), `Long.parseLong`/`Integer.parseInt` (ASCII digits
    only) and `Long.toString`. */
module JavaText {
  import opened Wrappers

  const LongMin: int := -0x8000_0000_0000_0000
  const LongMax: int := 0x7fff_ffff_ffff_ffff
  const IntMin: int := -0x8000_0000
  const IntMax: int := 0x7fff_ffff

  // ---------------------------------------------------------------- trim

  /** `trim` removes every character up to and including the space. */
  predicate IsTrimmed(c: char)
  {
    c <= ' '
  }

  /** The string without its leading trimmed characters. */
  function TrimStart(s: string): (r: string)
    ensures |r| <= |s| && r == s[|s| - |r|..]
    ensures r == [] || !IsTrimmed(r[0])
    ensures forall i :: 0 <= i < |s| - |r| ==> IsTrimmed(s[i])
    decreases |s|
  {
    if s != [] && IsTrimmed(s[0]) then TrimStart(s[1..]) else s
  }

  /** The string without its trailing trimmed characters. */
  function TrimEnd(s: string): (r: string)
    ensures |r| <= |s| && r == s[..|r|]
    ensures r == [] || !IsTrimmed(r[|r| - 1])
    ensures forall i :: |r| <= i < |s| ==> IsTrimmed(s[i])
    decreases |s|
  {
    if s != [] && IsTrimmed(s[|s| - 1]) then TrimEnd(s[..|s| - 1]) else s
  }

  /** `String.trim`. */
  function Trim(s: string): (r: string)
    ensures r == [] || (!IsTrimmed(r[0]) && !IsTrimmed(r[|r| - 1]))
  {
    TrimEnd(TrimStart(s))
  }

  /** A string is its own trim exactly when it is empty or neither ends
      with a trimmed character; in particular trimming twice changes
      nothing more. */
  lemma TrimFixpoint(s: string)
    ensures Trim(s) == s <==> s == [] || (!IsTrimmed(s[0]) && !IsTrimmed(s[|s| - 1]))
    ensures Trim(Trim(s)) == Trim(s)
  {
    var t := Trim(s);
    assert t == [] || (!IsTrimmed(t[0]) && !IsTrimmed(t[|t| - 1]));
    if s != [] && !IsTrimmed(s[0]) && !IsTrimmed(s[|s| - 1]) {
      assert TrimStart(s) == s;
    }
    if t != [] {
      assert TrimStart(t) == t;
    }
  }

  // ---------------------------------------------------------------- split

  /** The fields between the '|' separators, empty ones included. */
  function Fields(s: string): (r: seq<string>)
    ensures |r| >= 1
    decreases |s|
  {
    if s == [] then [[]]
    else
      var rest := Fields(s[1..]);
      if s[0] == '|' then [[]] + rest else [[s[0]] + rest[0]] + rest[1..]
  }

  /** The fields joined back with '|'. */
  function JoinFields(fs: seq<string>): string
    requires |fs| >= 1
    decreases |fs|
  {
    if |fs| == 1 then fs[0] else fs[0] + ['|'] + JoinFields(fs[1..])
  }

  /** Cutting a string at every '|' and joining the fields again gives the
      string back, and no field holds a separator. */
  lemma {:induction false} FieldsRoundTrip(s: string)
    ensures JoinFields(Fields(s)) == s
    ensures forall k :: 0 <= k < |Fields(s)| ==> '|' !in Fields(s)[k]
    decreases |s|
  {
    if s != [] {
      FieldsRoundTrip(s[1..]);
      var rest := Fields(s[1..]);
      if s[0] == '|' {
        assert Fields(s)[1..] == rest;
        assert s == [s[0]] + s[1..];
      } else {
        var fs := Fields(s);
        assert fs[0] == [s[0]] + rest[0];
        if |rest| > 1 {
          assert fs[1..] == rest[1..];
          assert JoinFields(rest) == rest[0] + ['|'] + JoinFields(rest[1..]);
        }
        assert s == [s[0]] + s[1..];
        forall k | 0 <= k < |fs| ensures '|' !in fs[k] {
          if k > 0 {
            assert fs[k] == rest[k];
          }
        }
      }
    }
  }

  /** The fields without the empty ones at the end. */
  function DropTrailingEmpty(fs: seq<string>): (r: seq<string>)
    ensures r <= fs
    ensures r == [] || r[|r| - 1] != []
    ensures forall k :: |r| <= k < |fs| ==> fs[k] == []
    decreases |fs|
  {
    if fs != [] && fs[|fs| - 1] == [] then DropTrailingEmpty(fs[..|fs| - 1]) else fs
  }

  /** `String.split("\\|")`: a string without a separator is its only
      field; otherwise the fields, empty ones included, except the empty
      ones at the end. */
  function Split(s: string): (r: seq<string>)
    ensures '|' !in s ==> r == [s]
    ensures '|' in s ==> r <= Fields(s) && (r == [] || r[|r| - 1] != [])
  {
    if '|' !in s then [s] else DropTrailingEmpty(Fields(s))
  }

  /** No piece of a split holds the separator, and a split that found a
      separator drops only empty fields of the string, at the end. */
  lemma SplitPieces(s: string)
    ensures forall k :: 0 <= k < |Split(s)| ==> '|' !in Split(s)[k]
    ensures '|' in s ==> JoinFields(Fields(s)) == s
    ensures '|' in s ==> forall k :: |Split(s)| <= k < |Fields(s)| ==> Fields(s)[k] == []
  {
    FieldsRoundTrip(s);
    if '|' in s {
      forall k | 0 <= k < |Split(s)| ensures '|' !in Split(s)[k] {
        assert Split(s)[k] == Fields(s)[k];
      }
    }
  }

  // ---------------------------------------------------------------- case

  /** `Character.toLowerCase` on ASCII letters. */
  function LowerChar(c: char): char
  {
    if 'A' <= c <= 'Z' then (c as int + 32) as char else c
  }

  /** `String.toLowerCase`, letter by letter. */
  function ToLower(s: string): (r: string)
    ensures |r| == |s|
    ensures forall i :: 0 <= i < |s| ==> r[i] == LowerChar(s[i])
  {
    seq(|s|, i requires 0 <= i < |s| => LowerChar(s[i]))
  }

  /** `String.equalsIgnoreCase`: equal lengths and equal lower cases. */
  predicate EqualsIgnoreCase(a: string, b: string)
  {
    ToLower(a) == ToLower(b)
  }

  /** A lower-cased string has no upper-case letter left, so lowering again
      changes nothing, and two strings are equal ignoring case exactly when
      their lower cases are equal strings. */
  lemma ToLowerIdempotent(s: string)
    ensures forall i :: 0 <= i < |ToLower(s)| ==> !('A' <= ToLower(s)[i] <= 'Z')
    ensures ToLower(ToLower(s)) == ToLower(s)
    ensures EqualsIgnoreCase(s, ToLower(s))
  {
  }

  // ---------------------------------------------------------------- numbers

  predicate IsDigit(c: char)
  {
    '0' <= c <= '9'
  }

  predicate AllDigits(s: string)
  {
    forall i :: 0 <= i < |s| ==> IsDigit(s[i])
  }

  /** The value of a string of decimal digits, most significant first. */
  function DigitsValue(s: string): (v: nat)
    requires AllDigits(s)
    decreases |s|
  {
    if s == [] then 0 else DigitsValue(s[..|s| - 1]) * 10 + (s[|s| - 1] as int - '0' as int)
  }

  /** `Long.parseLong` (bounds `LongMin`..`LongMax`) and `Integer.parseInt`
      (bounds `IntMin`..`IntMax`): an optional sign, then at least one digit,
      and a value within the bounds; anything else throws
      `NumberFormatException`. */
  function ParseInteger(s: string, lo: int, hi: int): (r: Result<int>)
    ensures r.Failure? ==> r.error == NumberFormat
    ensures r.Success? ==> lo <= r.value <= hi
    ensures s == [] ==> r.Failure?
  {
    if s == [] then Failure(NumberFormat)
    else
      var signed := s[0] == '-' || s[0] == '+';
      var digits := if signed then s[1..] else s;
      if digits == [] || !AllDigits(digits) then Failure(NumberFormat)
      else
        var magnitude: int := DigitsValue(digits);
        var v := if s[0] == '-' then -magnitude else magnitude;
        if lo <= v <= hi then Success(v) else Failure(NumberFormat)
  }

  function DigitChar(d: nat): char
    requires d < 10
  {
    ('0' as int + d) as char
  }

  /** The decimal digits of a natural number, with no leading zero. */
  function ShowNat(n: nat): (s: string)
    ensures s != [] && AllDigits(s)
    decreases n
  {
    if n < 10 then [DigitChar(n)] else ShowNat(n / 10) + [DigitChar(n % 10)]
  }

  /** `Long.toString`: a minus sign for negative numbers, then the digits. */
  function ShowInt(n: int): (s: string)
    ensures s != [] && ':' !in s
  {
    if n < 0 then ['-'] + ShowNat(-n) else ShowNat(n)
  }

  lemma {:induction false} ShowNatValue(n: nat)
    ensures DigitsValue(ShowNat(n)) == n
    decreases n
  {
    if n >= 10 {
      ShowNatValue(n / 10);
      var s := ShowNat(n);
      assert s[..|s| - 1] == ShowNat(n / 10);
    }
  }

  /** Parsing what `Long.toString` printed gives the number back whenever it
      lies within the bounds; so printing is injective. */
  lemma ParseShowRoundTrip(n: int, lo: int, hi: int)
    requires lo <= n <= hi
    ensures ParseInteger(ShowInt(n), lo, hi) == Success(n)
  {
    var s := ShowInt(n);
    if n < 0 {
      var m: nat := -n;
      ShowNatValue(m);
      assert s[0] == '-' && s[1..] == ShowNat(m);
      var magnitude: int := DigitsValue(s[1..]);
      assert -magnitude == n;
    } else {
      ShowNatValue(n);
      assert IsDigit(s[0]);
    }
  }

  lemma ShowIntInjective(a: int, b: int)
    requires ShowInt(a) == ShowInt(b)
    ensures a == b
  {
    var lo := if a < b then a else b;
    var hi := if a < b then b else a;
    ParseShowRoundTrip(a, lo, hi);
    ParseShowRoundTrip(b, lo, hi);
  }
}
