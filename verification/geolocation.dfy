/**
 * `validateSingleInput`, `parseLocation` and `validateInputs`: the
 * `geolocation` field is checked against the pattern
 * `^\d{1,3}\.\d+,-\d{1,3}\.\d+$`, split on the comma, and each half goes
 * through `parseFloat`; a NaN half is rejected.
 */
module Geolocation {

  import opened Wrappers
  import opened Records

  /** A JavaScript number as `parseFloat` yields it here: NaN or a finite value. */
  datatype Float = NaN | Num(value: real)

  datatype Coordinates = Coordinates(latitude: Float, longitude: Float)

  predicate IsDigit(c: char) { '0' <= c <= '9' }

  predicate AllDigits(s: string) { forall i :: 0 <= i < |s| ==> IsDigit(s[i]) }

  /** Every character of `s` from `lo` up to `hi` is a digit. */
  predicate DigitsBetween(s: string, lo: int, hi: int)
    requires 0 <= lo <= hi <= |s|
  {
    forall j | lo <= j < hi :: IsDigit(s[j])
  }

  /** The characters of `s` from `lo` up to `hi` match `\d{1,3}\.\d+`, with the dot at `k`. */
  predicate UnsignedDecimalAt(s: string, lo: int, hi: int)
    requires 0 <= lo <= hi <= |s|
  {
    exists k | lo + 1 <= k <= lo + 3 :: k + 1 < hi && s[k] == '.' && DigitsBetween(s, lo, k) && DigitsBetween(s, k + 1, hi)
  }

  /**
   * `^\d{1,3}\.\d+,-\d{1,3}\.\d+$` with the comma at `i`: the longitude
   * must carry a minus sign.
   */
  predicate MatchesAt(s: string, i: int)
  {
    0 <= i < |s| - 1 && s[i] == ',' && s[i + 1] == '-' && UnsignedDecimalAt(s, 0, i) && UnsignedDecimalAt(s, i + 2, |s|)
  }

  /** Some comma position from `i` on makes `s` match the pattern. */
  predicate MatchesFrom(s: string, i: nat)
    decreases |s| - i
  {
    i < |s| - 1 && (MatchesAt(s, i) || MatchesFrom(s, i + 1))
  }

  /** `s` matches `^\d{1,3}\.\d+,-\d{1,3}\.\d+$`: the scan finds a comma where it matches. */
  predicate MatchesGeolocation(s: string)
  {
    MatchesFrom(s, 0)
  }

  /** The scan from `i` succeeds exactly when some comma position from `i` on matches. */
  lemma {:induction false} MatchesFromIff(s: string, i: nat)
    ensures MatchesFrom(s, i) <==> exists j :: i <= j && MatchesAt(s, j)
    decreases |s| - i
  {
    if i < |s| - 1 {
      MatchesFromIff(s, i + 1);
      if exists j :: i <= j && MatchesAt(s, j) {
        var j :| i <= j && MatchesAt(s, j);
        assert j == i || (i + 1 <= j && MatchesAt(s, j));
      }
    }
  }

  /** The pattern, read as its regular expression: some comma position matches. */
  lemma MatchesGeolocationIff(s: string)
    ensures MatchesGeolocation(s) <==> exists i :: MatchesAt(s, i)
  {
    MatchesFromIff(s, 0);
  }

  /** A match of the pattern with its comma at `i` and its two dots at `k1` and `k2`. */
  ghost predicate MatchedAt(s: string, i: int, k1: int, k2: int)
  {
    && 1 <= k1 <= 3 && k1 + 1 < i && i + 3 <= k2 <= i + 5 && k2 + 1 < |s|
    && s[k1] == '.' && s[i] == ',' && s[i + 1] == '-' && s[k2] == '.'
    && DigitsBetween(s, 0, k1) && DigitsBetween(s, k1 + 1, i)
    && DigitsBetween(s, i + 2, k2) && DigitsBetween(s, k2 + 1, |s|)
  }

  /** Every match has a comma and two dots where `MatchedAt` places them. */
  lemma MatchWitness(s: string) returns (i: int, k1: int, k2: int)
    requires MatchesGeolocation(s)
    ensures MatchedAt(s, i, k1, k2)
  {
    MatchesGeolocationIff(s);
    i :| MatchesAt(s, i);
    k1 :| 1 <= k1 <= 3 && k1 + 1 < i && s[k1] == '.' && DigitsBetween(s, 0, k1) && DigitsBetween(s, k1 + 1, i);
    k2 :| i + 3 <= k2 <= i + 5 && k2 + 1 < |s| && s[k2] == '.'
      && DigitsBetween(s, i + 2, k2) && DigitsBetween(s, k2 + 1, |s|);
  }

  /** Characters placed as `MatchedAt` says make a match. */
  lemma MatchOfWitness(s: string, i: int, k1: int, k2: int)
    requires MatchedAt(s, i, k1, k2)
    ensures MatchesGeolocation(s)
  {
    assert UnsignedDecimalAt(s, 0, i);
    assert UnsignedDecimalAt(s, i + 2, |s|);
    assert MatchesAt(s, i);
    MatchesGeolocationIff(s);
  }

  // ---------------------------------------------------------------- split

  /** The position of the first `sep` in `s`. */
  function IndexOf(s: string, sep: char): (i: nat)
    requires sep in s
    ensures i < |s| && s[i] == sep && sep !in s[..i]
  {
    if s[0] == sep then 0
    else
      var j := IndexOf(s[1..], sep);
      assert s[1..][..j] == s[1..j + 1];
      1 + j
  }

  /** `s.split(sep)` for a one-character separator. */
  function Split(s: string, sep: char): (parts: seq<string>)
    ensures |parts| >= 1
    ensures forall k :: 0 <= k < |parts| ==> sep !in parts[k]
    decreases |s|
  {
    if sep !in s then [s]
    else
      var i := IndexOf(s, sep);
      [s[..i]] + Split(s[i + 1..], sep)
  }

  /** `parts.join(sep)`, the inverse of `Split`. */
  function Join(parts: seq<string>, sep: char): string
  {
    if parts == [] then ""
    else if |parts| == 1 then parts[0]
    else parts[0] + [sep] + Join(parts[1..], sep)
  }

  /** Joining the parts of a split gives back the string. */
  lemma {:induction false} JoinSplit(s: string, sep: char)
    ensures Join(Split(s, sep), sep) == s
    decreases |s|
  {
    if sep in s {
      var i := IndexOf(s, sep);
      var rest := Split(s[i + 1..], sep);
      var parts := [s[..i]] + rest;
      SplitAtFirst(s, sep);
      assert parts[0] == s[..i] && parts[1..] == rest && |parts| > 1;
      JoinSplit(s[i + 1..], sep);
      assert Join(parts, sep) == s[..i] + [sep] + s[i + 1..];
      Around(s, i);
    }
  }

  /** A string containing the separator splits at its first occurrence. */
  lemma SplitAtFirst(s: string, sep: char)
    requires sep in s
    ensures Split(s, sep) == [s[..IndexOf(s, sep)]] + Split(s[IndexOf(s, sep) + 1..], sep)
  {
  }

  /** A string is what lies before, at and after one of its positions. */
  lemma Around(s: string, i: nat)
    requires i < |s|
    ensures s == s[..i] + [s[i]] + s[i + 1..]
  {
    assert s[..i] + [s[i]] + s[i + 1..] == s[..i] + s[i..];
  }

  /** A string with exactly one separator splits into the two sides of it. */
  lemma SplitAtOnlySeparator(a: string, b: string, sep: char)
    requires sep !in a && sep !in b
    ensures Split(a + [sep] + b, sep) == [a, b]
  {
    var s := a + [sep] + b;
    assert s[|a|] == sep;
    var i := IndexOf(s, sep);
    assert i == |a|;
    assert s[..i] == a;
    assert s[i + 1..] == b;
  }

  // ---------------------------------------------------------- parseFloat

  /** The length of the longest prefix of `s` made of digits. */
  function DigitRun(s: string): (n: nat)
    ensures n <= |s| && AllDigits(s[..n])
    ensures n < |s| ==> !IsDigit(s[n])
  {
    if s == [] || !IsDigit(s[0]) then 0
    else
      var n := DigitRun(s[1..]);
      assert s[..n + 1] == [s[0]] + s[1..][..n];
      1 + n
  }

  /** The natural number a string of decimal digits denotes. */
  function DigitsValue(s: string): nat
    requires AllDigits(s)
  {
    if s == [] then 0 else 10 * DigitsValue(s[..|s| - 1]) + (s[|s| - 1] as int - '0' as int)
  }

  /** The value in `[0, 1)` of the digits after a decimal point. */
  function FractionValue(frac: string): (x: real)
    requires AllDigits(frac)
    ensures 0.0 <= x < 1.0
  {
    if frac == [] then 0.0 else ((frac[0] as int - '0' as int) as real + FractionValue(frac[1..])) / 10.0
  }

  /** The value of `whole.frac` in decimal notation. */
  function Decimal(whole: string, frac: string): (x: real)
    requires AllDigits(whole) && AllDigits(frac)
    ensures x >= 0.0
  {
    DigitsValue(whole) as real + FractionValue(frac)
  }

  /**
   * The unsigned part of `parseFloat`: the longest prefix `digits [. digits]`
   * of `body`, or None when that prefix holds no digit.
   */
  function ParseUnsigned(body: string): (r: Option<real>)
    ensures r.Some? ==> r.value >= 0.0
    ensures |body| > 0 && IsDigit(body[0]) ==> r.Some?
    ensures body == [] ==> r.None?
  {
    var n := DigitRun(body);
    var rest := body[n..];
    var frac := if |rest| > 0 && rest[0] == '.' then rest[1..][..DigitRun(rest[1..])] else [];
    if n == 0 && frac == [] then None
    else
      Some(Decimal(body[..n], frac))
  }

  /**
   * `parseFloat` on the prefix grammar `[+-] digits [. digits]`: the longest
   * such prefix is read, and the result is NaN when it holds no digit.
   */
  function ParseFloat(s: string): (r: Float)
    ensures s == [] || s == "-" || s == "+" ==> r.NaN?
    ensures |s| > 0 && IsDigit(s[0]) ==> r.Num? && r.value >= 0.0
    ensures |s| > 1 && s[0] == '-' && IsDigit(s[1]) ==> r.Num? && r.value <= 0.0
  {
    var body := if |s| > 0 && (s[0] == '-' || s[0] == '+') then s[1..] else s;
    match ParseUnsigned(body)
    case None => NaN
    case Some(x) => Num(if |s| > 0 && s[0] == '-' then -x else x)
  }

  /** A run of digits stops at the first character that is not one. */
  lemma {:induction false} DigitRunOfDigits(a: string, t: string)
    requires AllDigits(a)
    requires t == [] || !IsDigit(t[0])
    ensures DigitRun(a + t) == |a|
    decreases |a|
  {
    if a != [] {
      assert (a + t)[1..] == a[1..] + t;
      DigitRunOfDigits(a[1..], t);
    } else {
      assert a + t == t;
    }
  }

  /** The unsigned reading of `whole.frac` is its decimal value. */
  lemma ParseUnsignedDecimal(whole: string, frac: string)
    requires AllDigits(whole) && AllDigits(frac) && |frac| > 0
    ensures ParseUnsigned(whole + "." + frac) == Some(Decimal(whole, frac))
  {
    var s := whole + "." + frac;
    assert s == whole + ("." + frac);
    DigitRunOfDigits(whole, "." + frac);
    assert s[..|whole|] == whole;
    var rest := s[|whole|..];
    assert rest == "." + frac;
    assert rest[1..] == frac + [];
    DigitRunOfDigits(frac, []);
    assert frac[..|frac|] == frac;
  }

  /** `parseFloat` reads `whole.frac` as its decimal value. */
  lemma ParseFloatDecimal(t: string, whole: string, frac: string)
    requires AllDigits(whole) && AllDigits(frac) && |whole| > 0 && |frac| > 0
    requires t == whole + "." + frac
    ensures ParseFloat(t) == Num(Decimal(whole, frac))
  {
    ParseUnsignedDecimal(whole, frac);
    assert IsDigit(t[0]);
  }

  /** `parseFloat` reads `-whole.frac` as the negated decimal value. */
  lemma ParseFloatNegativeDecimal(t: string, whole: string, frac: string)
    requires AllDigits(whole) && AllDigits(frac) && |frac| > 0
    requires |t| > 0 && t[0] == '-' && t[1..] == whole + "." + frac
    ensures ParseFloat(t) == Num(-Decimal(whole, frac))
  {
    ParseUnsignedDecimal(whole, frac);
  }

  // ------------------------------------------------------- parseLocation

  /**
   * `validateSingleInput`: the schema accepts a present `geolocation`
   * string that matches the pattern, and yields that same string.
   */
  function ValidateSingleInput(g: Option<string>): Result<string, Error>
  {
    if g.Some? && MatchesGeolocation(g.value) then Success(g.value) else Failure(InvalidGeolocation)
  }

  /**
   * `parseLocation` on the value of the `geolocation` field: validate, split
   * on `,`, and `parseFloat` both halves (a missing half is NaN).
   */
  function ParseGeolocation(g: Option<string>): (r: Result<Coordinates, Error>)
    ensures r.Failure? <==> !(g.Some? && MatchesGeolocation(g.value))
    ensures r.Failure? ==> r.error == InvalidGeolocation
  {
    match ValidateSingleInput(g)
    case Failure(e) => Failure(e)
    case Success(s) =>
      var parts := Split(s, ',');
      Success(Coordinates(ParseFloat(parts[0]), if |parts| > 1 then ParseFloat(parts[1]) else NaN))
  }

  /** A match splits at its comma into exactly two halves. */
  lemma SplitMatched(s: string, i: int, k1: int, k2: int)
    requires MatchedAt(s, i, k1, k2)
    ensures Split(s, ',') == [s[..i], s[i + 1..]]
  {
    var lat, lon := s[..i], s[i + 1..];
    assert s == lat + [','] + lon;
    forall j | 0 <= j < |lat| ensures lat[j] != ',' {
      assert lat[j] == s[j];
      assert j != k1 ==> IsDigit(s[j]);
    }
    forall j | 0 <= j < |lon| ensures lon[j] != ',' {
      assert lon[j] == s[i + 1 + j];
      assert j != 0 && i + 1 + j != k2 ==> IsDigit(s[i + 1 + j]);
    }
    SplitAtOnlySeparator(lat, lon, ',');
  }

  /** The characters of `s` from `lo` up to `hi` are the digits of a string. */
  lemma DigitsSlice(s: string, lo: int, hi: int)
    requires 0 <= lo <= hi <= |s| && DigitsBetween(s, lo, hi)
    ensures AllDigits(s[lo..hi])
  {
    forall j | 0 <= j < hi - lo ensures IsDigit(s[lo..hi][j]) {
      assert s[lo..hi][j] == s[lo + j];
    }
  }

  /** Once a string is accepted, its coordinates are the `parseFloat` of the two halves. */
  lemma ParseGeolocationOfSplit(s: string, lat: string, lon: string)
    requires MatchesGeolocation(s) && Split(s, ',') == [lat, lon]
    ensures ParseGeolocation(Some(s)) == Success(Coordinates(ParseFloat(lat), ParseFloat(lon)))
  {
  }

  /**
   * A match parses to the latitude before the comma and the negated longitude
   * after the minus sign, each read as a decimal.
   */
  lemma ParseMatched(s: string, i: int, k1: int, k2: int)
    requires MatchedAt(s, i, k1, k2)
    ensures MatchesGeolocation(s)
    ensures AllDigits(s[..k1]) && AllDigits(s[k1 + 1..i]) && AllDigits(s[i + 2..k2]) && AllDigits(s[k2 + 1..])
    ensures ParseGeolocation(Some(s)) == Success(Coordinates(
      Num(Decimal(s[..k1], s[k1 + 1..i])), Num(-Decimal(s[i + 2..k2], s[k2 + 1..]))))
  {
    MatchOfWitness(s, i, k1, k2);
    SplitMatched(s, i, k1, k2);
    LatitudeOfMatch(s, i, k1, k2);
    LongitudeOfMatch(s, i, k1, k2);
    ParseGeolocationOfSplit(s, s[..i], s[i + 1..]);
  }

  /** The half before the comma reads as the decimal `whole.frac` it spells. */
  lemma LatitudeOfMatch(s: string, i: int, k1: int, k2: int)
    requires MatchedAt(s, i, k1, k2)
    ensures AllDigits(s[..k1]) && AllDigits(s[k1 + 1..i])
    ensures ParseFloat(s[..i]) == Num(Decimal(s[..k1], s[k1 + 1..i]))
  {
    DigitsSlice(s, 0, k1);
    DigitsSlice(s, k1 + 1, i);
    SliceAtDot(s, 0, k1, i);
    ParseFloatDecimal(s[..i], s[..k1], s[k1 + 1..i]);
  }

  /** The half after the comma reads as the negated decimal it spells. */
  lemma LongitudeOfMatch(s: string, i: int, k1: int, k2: int)
    requires MatchedAt(s, i, k1, k2)
    ensures AllDigits(s[i + 2..k2]) && AllDigits(s[k2 + 1..])
    ensures ParseFloat(s[i + 1..]) == Num(-Decimal(s[i + 2..k2], s[k2 + 1..]))
  {
    DigitsSlice(s, i + 2, k2);
    DigitsSlice(s, k2 + 1, |s|);
    SliceAtDot(s, i + 2, k2, |s|);
    assert s[i + 1..][1..] == s[i + 2..|s|];
    ParseFloatNegativeDecimal(s[i + 1..], s[i + 2..k2], s[k2 + 1..]);
  }

  /** A slice with a dot at `k` is the part before it, the dot and the part after it. */
  lemma SliceAtDot(s: string, lo: int, k: int, hi: int)
    requires 0 <= lo <= k < hi <= |s| && s[k] == '.'
    ensures s[lo..hi] == s[lo..k] + "." + s[k + 1..hi]
  {
  }

  /**
   * Every string the pattern accepts parses to two numbers, latitude >= 0 and
   * longitude <= 0: the NaN check after a successful match never fires.
   */
  lemma MatchedGeolocationParses(s: string)
    requires MatchesGeolocation(s)
    ensures var r := ParseGeolocation(Some(s));
      && r.Success?
      && r.value.latitude.Num? && r.value.latitude.value >= 0.0
      && r.value.longitude.Num? && r.value.longitude.value <= 0.0
  {
    var i, k1, k2 := MatchWitness(s);
    ParseMatched(s, i, k1, k2);
  }

  // ------------------------------------------------------ validateInputs

  /**
   * The check `validateInputs` makes of input[index]: an input without a
   * `geolocation` is skipped; otherwise it must parse, and neither half may
   * be NaN.
   */
  function CheckInput(g: Option<string>, index: nat): (r: Outcome<Error>)
    ensures g.None? ==> r.Pass?
    ensures r.Fail? ==> r.error in {InvalidGeolocation, NotANumber(index)}
  {
    if g.None? then Pass
    else
      match ParseGeolocation(g)
      case Failure(e) => Fail(e)
      case Success(c) => if c.latitude.NaN? || c.longitude.NaN? then Fail(NotANumber(index)) else Pass
  }

  /** The outcome of `CheckInput` for each input, in order. */
  function Checks(us: seq<Input>): seq<Outcome<Error>>
  {
    seq(|us|, j requires 0 <= j < |us| => CheckInput(us[j].geolocation, j))
  }

  /** `forEach` stopping at the first throw: the first failing outcome, if any. */
  function FirstFailure<E>(checks: seq<Outcome<E>>): Outcome<E>
  {
    if checks == [] then Pass
    else if checks[0].Fail? then checks[0]
    else FirstFailure(checks[1..])
  }

  /** The loop gets through exactly when every outcome passes; otherwise it stops at one of them. */
  lemma {:induction false} FirstFailurePasses<E>(checks: seq<Outcome<E>>)
    ensures FirstFailure(checks).Pass? <==> forall j :: 0 <= j < |checks| ==> checks[j].Pass?
    ensures FirstFailure(checks).Fail? ==> FirstFailure(checks) in checks
  {
    if checks != [] && checks[0].Pass? {
      FirstFailurePasses(checks[1..]);
      assert forall j :: 1 <= j < |checks| ==> checks[1..][j - 1] == checks[j];
    }
  }

  /** When all outcomes before `i` pass and the one at `i` fails, that one is the first failure. */
  lemma {:induction false} FirstFailureAt<E>(checks: seq<Outcome<E>>, i: int)
    requires 0 <= i < |checks| && checks[i].Fail?
    requires forall k :: 0 <= k < i ==> checks[k].Pass?
    ensures FirstFailure(checks) == checks[i]
  {
    if i > 0 {
      FirstFailureAt(checks[1..], i - 1);
    }
  }

  /** `validateInputs` over the whole batch. */
  function ValidationOutcome(us: seq<Input>): Outcome<Error>
  {
    FirstFailure(Checks(us))
  }

  /**
   * A batch passes validation exactly when every present `geolocation`
   * matches the pattern, and a failure is always the schema's, never NaN.
   */
  lemma ValidationOutcomeIff(us: seq<Input>)
    ensures ValidationOutcome(us).Pass? <==>
      forall j :: 0 <= j < |us| && us[j].geolocation.Some? ==> MatchesGeolocation(us[j].geolocation.value)
    ensures ValidationOutcome(us).Fail? ==> ValidationOutcome(us).error == InvalidGeolocation
  {
    var checks := Checks(us);
    assert forall j :: 0 <= j < |us| ==> checks[j] == CheckInput(us[j].geolocation, j);
    forall j | 0 <= j < |us| && us[j].geolocation.Some? && MatchesGeolocation(us[j].geolocation.value)
      ensures CheckInput(us[j].geolocation, j).Pass?
    {
      MatchedGeolocationParses(us[j].geolocation.value);
    }
    FirstFailurePasses(checks);
  }

  /** A string in which no comma is followed by a minus sign is rejected. */
  lemma RejectedWithoutMinus(s: string)
    requires forall i :: 0 <= i < |s| - 1 && s[i] == ',' ==> s[i + 1] != '-'
    ensures ParseGeolocation(Some(s)) == Failure(InvalidGeolocation)
  {
    MatchesGeolocationIff(s);
  }

  // ------------------------------------------------------------ examples

  /** `"45.0,-122.0"` parses to latitude 45.0 and longitude -122.0. */
  lemma ExampleAccepted(s: string)
    requires s == "45.0,-122.0"
    ensures ParseGeolocation(Some(s)) == Success(Coordinates(Num(45.0), Num(-122.0)))
  {
    assert MatchedAt(s, 4, 2, 9);
    ParseMatched(s, 4, 2, 9);
    ExampleDecimals(s);
  }

  /** The four digit strings of `"45.0,-122.0"` and the decimals they spell. */
  lemma ExampleDecimals(s: string)
    requires s == "45.0,-122.0"
    ensures AllDigits(s[..2]) && AllDigits(s[3..4]) && AllDigits(s[6..9]) && AllDigits(s[10..])
    ensures Decimal(s[..2], s[3..4]) == 45.0 && Decimal(s[6..9], s[10..]) == 122.0
  {
    assert s[..2] == "45" && s[3..4] == "0" && s[6..9] == "122" && s[10..] == "0";
    assert FractionValue("0") == 0.0 by { assert "0"[1..] == []; }
    assert DigitsValue("45") == 45 by { assert "45"[..1] == "4"; assert "4"[..0] == []; }
    assert DigitsValue("122") == 122 by { assert "122"[..2] == "12"; assert "12"[..1] == "1"; assert "1"[..0] == []; }
  }

  /** `"45,-122"` has no decimal fraction and is rejected. */
  lemma ExampleNoFraction(s: string)
    requires s == "45,-122"
    ensures ParseGeolocation(Some(s)) == Failure(InvalidGeolocation)
  {
    forall i | 0 <= i < |s| - 1 && s[i] == ',' ensures !UnsignedDecimalAt(s, 0, i) {
      assert i == 2;
    }
    MatchesGeolocationIff(s);
  }

  /** `"45.0,122.0"`: a longitude without a minus sign is rejected. */
  lemma ExampleNoMinusSign(s: string)
    requires s == "45.0,122.0"
    ensures ParseGeolocation(Some(s)) == Failure(InvalidGeolocation)
  {
    assert forall i :: 0 <= i < |s| - 1 && s[i] == ',' ==> i == 4;
    RejectedWithoutMinus(s);
  }
}
