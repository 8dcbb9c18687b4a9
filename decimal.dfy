/** Python's `float(text)` on the only texts the driver ever hands it: strings
    made of the characters 0-9, '.' and '-'. Over that alphabet Python accepts
    exactly an optional '-' followed by digits holding at most one '.', with at
    least one digit ("7", "1.", ".5", "-0.25"); everything else raises.
    Values are exact reals: binary floating-point rounding is not modelled. */
module Decimal {
  import opened Wrappers
  import opened Text

  predicate IsDigit(c: char) {
    '0' <= c <= '9'
  }

  predicate AllDigits(s: string) {
    forall i :: 0 <= i < |s| ==> IsDigit(s[i])
  }

  function DigitValue(c: char): nat
    requires IsDigit(c)
  {
    c as int - '0' as int
  }

  /** The number a string of decimal digits denotes (most significant first). */
  function NatValue(s: string): nat
    requires AllDigits(s)
  {
    if s == [] then 0 else 10 * NatValue(s[..|s| - 1]) + DigitValue(s[|s| - 1])
  }

  /** The real n * 10^-k, by k divisions by ten. */
  function Shifted(n: int, k: nat): (r: real)
    ensures n >= 0 ==> r >= 0.0
  {
    if k == 0 then n as real else Shifted(n, k - 1) / 10.0
  }

  /** The value of the numeral `whole.frac` whose fraction has k digits. */
  function FixedPoint(whole: nat, frac: nat, k: nat): (r: real)
    ensures r >= whole as real
  {
    whole as real + Shifted(frac, k)
  }

  /** `float(s)` for a string without a sign: never negative. */
  function ParseUnsigned(s: string): (r: Option<real>)
    ensures s == [] ==> r == None
    ensures r.Some? ==> r.value >= 0.0
  {
    var parts := Split(s, '.');
    if |parts| == 1 then
      if parts[0] != [] && AllDigits(parts[0]) then Some(NatValue(parts[0]) as real) else None
    else if |parts| == 2 && AllDigits(parts[0]) && AllDigits(parts[1]) && (parts[0] != [] || parts[1] != []) then
      Some(FixedPoint(NatValue(parts[0]), NatValue(parts[1]), |parts[1]|))
    else
      None
  }

  /** `float(s)` for a text made only of digits, '.' and '-' (the texts the
      driver passes it), None where Python raises ValueError on such a text.
      Python also accepts texts outside that alphabet, such as "+1", "1e3",
      " 7" and "inf"; this function rejects them. */
  function ParseFloat(s: string): (r: Option<real>)
    ensures s == [] ==> r == None
    ensures r.Some? && r.value < 0.0 ==> s[0] == '-'
  {
    if s != [] && s[0] == '-' then
      match ParseUnsigned(s[1..])
      case Some(v) => Some(-v)
      case None => None
    else
      ParseUnsigned(s)
  }

  /** Made only of the characters `_signal_parser` collects: digits, '.' and '-'. */
  predicate NumCharsOnly(s: string) {
    forall i :: 0 <= i < |s| ==> IsDigit(s[i]) || s[i] == '.' || s[i] == '-'
  }

  // ------------------------------------------------- numerals and their values

  /** A decimal numeral: a sign, the digits before the point and, when there
      is a point, the digits after it. */
  datatype Numeral = Numeral(negative: bool, whole: string, fraction: Option<string>)

  /** Digits only, and at least one of them. */
  predicate WellFormed(x: Numeral) {
    AllDigits(x.whole) &&
    match x.fraction
    case None => x.whole != []
    case Some(f) => AllDigits(f) && (x.whole != [] || f != [])
  }

  /** The numeral written without its sign. */
  function Unsigned(x: Numeral): string {
    match x.fraction
    case None => x.whole
    case Some(f) => x.whole + ['.'] + f
  }

  /** The numeral written out: "7", "-3", "12.345", ".5", "1.". */
  function Written(x: Numeral): string {
    if x.negative then ['-'] + Unsigned(x) else Unsigned(x)
  }

  /** The number the numeral denotes, without its sign. */
  function Magnitude(x: Numeral): real
    requires WellFormed(x)
  {
    match x.fraction
    case None => NatValue(x.whole) as real
    case Some(f) => FixedPoint(NatValue(x.whole), NatValue(f), |f|)
  }

  /** The number the numeral denotes. */
  function Value(x: Numeral): real
    requires WellFormed(x)
  {
    if x.negative then -Magnitude(x) else Magnitude(x)
  }

  lemma DigitsHaveNoPoint(s: string)
    requires AllDigits(s)
    ensures '.' !in s && '-' !in s
  {
    assert forall i :: 0 <= i < |s| ==> IsDigit(s[i]);
  }

  /** Without its sign, a numeral reads as its magnitude, and it does not
      itself start with '-'. */
  lemma ParseUnsignedText(x: Numeral)
    requires WellFormed(x)
    ensures ParseUnsigned(Unsigned(x)) == Some(Magnitude(x))
    ensures Unsigned(x) != [] && Unsigned(x)[0] != '-'
  {
    DigitsHaveNoPoint(x.whole);
    SplitNoSeparator(x.whole, '.');
    match x.fraction
    case None =>
      assert Split(Unsigned(x), '.') == [x.whole];
    case Some(f) =>
      DigitsHaveNoPoint(f);
      SplitNoSeparator(f, '.');
      SplitAtSeparator(x.whole, f, '.');
      assert Split(Unsigned(x), '.') == [x.whole, f];
      if x.whole == [] {
        assert Unsigned(x)[0] == '.';
      } else {
        assert Unsigned(x)[0] == x.whole[0];
      }
  }

  /** A leading '-' negates what the rest of the text reads as. */
  lemma ParseNegated(u: string, v: real)
    requires ParseUnsigned(u) == Some(v)
    ensures ParseFloat(['-'] + u) == Some(-v)
  {
    assert (['-'] + u)[1..] == u;
  }

  /** `float` reads every well-formed numeral as the number it denotes. */
  lemma ParseNumeral(x: Numeral)
    requires WellFormed(x)
    ensures ParseFloat(Written(x)) == Some(Value(x))
  {
    ParseUnsignedText(x);
    if x.negative {
      ParseNegated(Unsigned(x), Magnitude(x));
    }
  }

  /** The numeral an accepted unsigned text spells. */
  lemma UnsignedNumeral(u: string) returns (x: Numeral)
    requires ParseUnsigned(u).Some?
    ensures WellFormed(x) && !x.negative
    ensures Unsigned(x) == u && Magnitude(x) == ParseUnsigned(u).value
  {
    var parts := Split(u, '.');
    JoinSplit(u, '.');
    if |parts| == 1 {
      x := Numeral(false, parts[0], None);
    } else {
      x := Numeral(false, parts[0], Some(parts[1]));
      assert parts == [parts[0]] + [parts[1]];
      JoinCons(parts[0], [parts[1]], '.');
    }
  }

  /** Conversely, every text `float` accepts is the text of a well-formed
      numeral, and it reads as that numeral's value. */
  lemma ParsedIsNumeral(s: string)
    requires ParseFloat(s).Some?
    ensures exists x :: WellFormed(x) && Written(x) == s && Value(x) == ParseFloat(s).value
  {
    if s[0] == '-' {
      var x := UnsignedNumeral(s[1..]);
      var y := x.(negative := true);
      assert Unsigned(y) == Unsigned(x) && Magnitude(y) == Magnitude(x);
      assert Written(y) == s;
    } else {
      var x := UnsignedNumeral(s);
      assert Written(x) == s;
    }
  }

  lemma NumeralConcat(a: string, b: string)
    requires NumCharsOnly(a) && NumCharsOnly(b)
    ensures NumCharsOnly(a + b)
  {
    assert forall i :: 0 <= i < |b| ==> (a + b)[|a| + i] == b[i];
  }

  lemma DigitsAreNumeral(s: string)
    requires AllDigits(s)
    ensures NumCharsOnly(s)
  {
    assert forall i :: 0 <= i < |s| ==> IsDigit(s[i]);
  }

  /** A numeral's text is made of digits, '.' and '-' only. */
  lemma NumeralCharacters(x: Numeral)
    requires WellFormed(x)
    ensures NumCharsOnly(Written(x))
  {
    DigitsAreNumeral(x.whole);
    match x.fraction {
      case None =>
      case Some(f) =>
        DigitsAreNumeral(f);
        NumeralConcat(x.whole, ['.']);
        NumeralConcat(x.whole + ['.'], f);
    }
    if x.negative {
      NumeralConcat(['-'], Unsigned(x));
    }
  }

  /** Texts Python refuses for want of a digit. */
  lemma RejectedWithoutDigits()
    ensures ParseFloat("") == None && ParseFloat("-") == None && ParseFloat(".") == None
  {
    SplitNoSeparator("-", '.');
    assert "." == [] + ['.'] + [];
    SplitAtSeparator([], [], '.');
  }

  /** A second point is refused. */
  lemma RejectedSecondPoint()
    ensures ParseFloat("1.2.3") == None
  {
    assert "1.2.3" == "1" + ['.'] + "2.3";
    assert "2.3" == "2" + ['.'] + "3";
    SplitAtSeparator("1", "2.3", '.');
    SplitAtSeparator("2", "3", '.');
    SplitNoSeparator("1", '.');
    SplitNoSeparator("2", '.');
    SplitNoSeparator("3", '.');
  }

  /** A sign anywhere but in front, or twice, is refused. */
  lemma RejectedMisplacedSign()
    ensures ParseFloat("1-2") == None && ParseFloat("--1") == None
  {
    SplitNoSeparator("1-2", '.');
    assert "--1"[1..] == "-1";
    SplitNoSeparator("-1", '.');
    assert !IsDigit('-');
  }
}
