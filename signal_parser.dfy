/** Turning an instrument reply into an SI value: `_response_preparser` and
    `_signal_parser` (qcodes/instrument_drivers/oxford/MercuryiPS_VISA.py:12-46). */
module SignalParsing {
  import opened Wrappers
  import opened Text
  import opened Decimal

  predicate NotColon(c: char) {
    c != ':'
  }

  /** `_response_preparser`: the reply with every ':' removed. */
  function Preparse(bareResp: string): (r: string)
    ensures ':' !in r
    ensures |r| <= |bareResp|
  {
    var r := Filter(bareResp, NotColon);
    assert forall i :: 0 <= i < |r| ==> r[i] != ':';
    r
  }

  /** Preparse drops the colons and nothing else: every other character keeps
      its count, and the result is read off piece by piece. */
  lemma PreparseCounts(s: string, c: char)
    ensures multiset(Preparse(s))[c] == if c == ':' then 0 else multiset(s)[c]
  {
    FilterCounts(s, NotColon, c);
  }

  lemma PreparseConcat(a: string, b: string)
    ensures Preparse(a + b) == Preparse(a) + Preparse(b)
  {
    FilterConcat(a, b, NotColon);
  }

  lemma PreparseColonFree(s: string)
    requires ':' !in s
    ensures Preparse(s) == s
  {
    FilterKeepsAll(s, NotColon);
  }

  /** The ':' an echo-stripped reply starts with is dropped. */
  lemma PreparseLeadingColon(rest: string)
    requires ':' !in rest
    ensures Preparse([':'] + rest) == rest
  {
    PreparseConcat([':'], rest);
    PreparseColonFree(rest);
    assert Preparse([':']) == [];
  }

  /** A reading framed by colons keeps only its two pieces. */
  lemma PreparseFramed(a: string, b: string)
    requires ':' !in a && ':' !in b
    ensures Preparse([':'] + a + [':'] + b) == a + b
  {
    PreparseLeadingColon(a);
    PreparseLeadingColon([]);
    PreparseConcat([':'] + a, [':']);
    assert Preparse([':'] + a + [':']) == a;
    PreparseConcat([':'] + a + [':'], b);
    PreparseColonFree(b);
  }

  lemma PreparseIdempotent(s: string)
    ensures Preparse(Preparse(s)) == Preparse(s)
  {
    PreparseColonFree(Preparse(s));
  }

  /** The characters `numchars` lists: the decimal digits, '.' and '-'. */
  predicate IsNumChar(c: char) {
    IsDigit(c) || c == '.' || c == '-'
  }

  predicate HasNoNumChar(s: string) {
    forall i :: 0 <= i < |s| ==> !IsNumChar(s[i])
  }

  /** `digits`: the numeric characters of the preparsed reply, in order. */
  function Digits(response: string): (r: string)
    ensures NumCharsOnly(r)
    ensures |r| <= |Preparse(response)|
  {
    var r := Filter(Preparse(response), IsNumChar);
    assert forall i :: 0 <= i < |r| ==> IsNumChar(r[i]);
    r
  }

  /** Every numeric character of the preparsed reply is kept, as often as it
      occurs, and nothing else. */
  lemma DigitsCounts(s: string, c: char)
    ensures multiset(Digits(s))[c] == if IsNumChar(c) then multiset(Preparse(s))[c] else 0
  {
    FilterCounts(Preparse(s), IsNumChar, c);
  }

  /** The digits of a concatenation are the digits of each part, in order. */
  lemma DigitsConcat(a: string, b: string)
    ensures Digits(a + b) == Digits(a) + Digits(b)
  {
    PreparseConcat(a, b);
    FilterConcat(Preparse(a), Preparse(b), IsNumChar);
  }

  /** A single character is kept exactly when it is numeric. */
  lemma DigitsOfChar(c: char)
    ensures Digits([c]) == if IsNumChar(c) then [c] else []
  {
    if c == ':' {
      PreparseLeadingColon([]);
      assert [':'] + [] == [c];
    } else {
      PreparseColonFree([c]);
    }
  }

  /** A colon-free numeral is its own digits. */
  lemma DigitsOfNumeral(a: string)
    requires NumCharsOnly(a) && ':' !in a
    ensures Digits(a) == a
  {
    PreparseColonFree(a);
    FilterKeepsAll(a, IsNumChar);
  }

  /** A non-numeric character between two numerals is skipped: the digits
      are both numerals joined. */
  lemma DigitsAcross(a: string, c: char, b: string)
    requires NumCharsOnly(a) && ':' !in a && NumCharsOnly(b) && ':' !in b && !IsNumChar(c)
    ensures Digits(a + [c] + b) == a + b
  {
    DigitsOfChar(c);
    DigitsOfNumeral(a);
    DigitsConcat(a, [c]);
    assert Digits(a + [c]) == a + [];
    assert a + [] == a;
    DigitsOfNumeral(b);
    DigitsConcat(a + [c], b);
  }

  /** `1.5T2`: the digits are gathered from the whole reply, not only from its
      leading run, and the suffix is what is left after that many characters. */
  lemma ScatteredDigits()
    ensures Digits("1.5T2") == "1.52" && ScaleAndUnit("1.5T2") == "2"
  {
    assert "1.5" + ['T'] + "2" == "1.5T2" && "1.5" + "2" == "1.52";
    DigitsAcross("1.5", 'T', "2");
    PreparseColonFree("1.5T2");
  }

  /** `scale_and_unit`: the preparsed reply minus as many leading characters as
      there are numeric characters. */
  function ScaleAndUnit(response: string): (r: string)
    ensures |Digits(response)| + |r| == |Preparse(response)|
    ensures r == Preparse(response)[|Preparse(response)| - |r|..]
  {
    Preparse(response)[|Digits(response)|..]
  }

  /** `scale_to_factor`. */
  const ScaleToFactor: map<char, real> :=
    map['n' := 0.000000001, 'u' := 0.000001, 'm' := 0.001, 'k' := 1000.0, 'M' := 1000000.0]

  /** `their_scaling`: the factor the leading SI prefix of the suffix stands for. */
  function TheirScaling(scaleAndUnit: string): (r: real)
    ensures r > 0.0
    ensures r != 1.0 <==> scaleAndUnit != [] && scaleAndUnit[0] in ScaleToFactor
  {
    if scaleAndUnit == [] then 1.0
    else if scaleAndUnit[0] in ScaleToFactor then ScaleToFactor[scaleAndUnit[0]]
    else 1.0
  }

  /** The returned value: the number read, times the instrument's prefix factor,
      times the caller's factor. */
  function SiValue(number: real, theirScaling: real, ourScaling: real): (r: real)
    ensures theirScaling > 0.0 && ourScaling > 0.0 ==>
      (r > 0.0 <==> number > 0.0) && (r < 0.0 <==> number < 0.0)
  {
    number * theirScaling * ourScaling
  }

  /** `_signal_parser(our_scaling, response)`; Err where `float(digits)` raises. */
  function SignalParser(ourScaling: real, response: string): (r: Result<real, DriverError>)
    ensures r.Err? <==> ParseFloat(Digits(response)).None?
  {
    var digits := Digits(response);
    match ParseFloat(digits)
    case None => Err(NotAFloat(digits))
    case Some(v) => Ok(SiValue(v, TheirScaling(ScaleAndUnit(response)), ourScaling))
  }

  /** A reply that reads as a numeral followed by a unit text splits exactly there. */
  lemma NumeralThenUnit(response: string, numeral: string, unit: string)
    requires Preparse(response) == numeral + unit
    requires NumCharsOnly(numeral) && HasNoNumChar(unit)
    ensures Digits(response) == numeral
    ensures ScaleAndUnit(response) == unit
  {
    FilterConcat(numeral, unit, IsNumChar);
    FilterKeepsAll(numeral, IsNumChar);
    FilterDropsAll(unit, IsNumChar);
  }

  /** A reply made of a numeral and a unit text parses to the numeral's value
      times the unit's SI prefix and the caller's scale. */
  lemma ParseReading(ourScaling: real, response: string, x: Numeral, unit: string)
    requires WellFormed(x) && HasNoNumChar(unit)
    requires Preparse(response) == Written(x) + unit
    ensures SignalParser(ourScaling, response) == Ok(SiValue(Value(x), TheirScaling(unit), ourScaling))
  {
    NumeralCharacters(x);
    NumeralThenUnit(response, Written(x), unit);
    ParseNumeral(x);
  }

  /** A numeric text with no numeral in it is a parse error. */
  lemma NoNumeralFails(ourScaling: real, response: string)
    requires HasNoNumChar(Preparse(response))
    ensures SignalParser(ourScaling, response).Err?
  {
    FilterDropsAll(Preparse(response), IsNumChar);
  }

  /** The factor a unit text's first character selects, if any. */
  lemma UnitFactors()
    ensures TheirScaling("nA") == 0.000000001 && TheirScaling("uA") == 0.000001
    ensures TheirScaling("mA") == 0.001 && TheirScaling("k") == 1000.0 && TheirScaling("MA") == 1000000.0
    ensures TheirScaling("T") == 1.0 && TheirScaling("") == 1.0
  {
    assert "nA"[0] == 'n' && "uA"[0] == 'u' && "MA"[0] == 'M';
    assert "mA"[0] == 'm' && "k"[0] == 'k' && "T"[0] == 'T';
  }

  // Worked readings: a milli prefix, a kilo prefix with the per-minute
  // scale, a bare number, and a reply with colons around the number.

  /** "12.345", a numeral with a fraction. */
  function Milli(): Numeral {
    Numeral(false, "12", Some("345"))
  }

  lemma MilliValue()
    ensures WellFormed(Milli()) && Value(Milli()) == 12.345
  {
    assert "12"[..1] == "1" && "345"[..2] == "34" && "34"[..1] == "3";
    assert NatValue("1") == 1 && NatValue("3") == 3 && NatValue("34") == 34;
    assert NatValue("12") == 12 && NatValue("345") == 345;
    assert Shifted(345, 1) == 34.5 && Shifted(345, 2) == 3.45;
  }

  lemma MilliText()
    ensures Preparse("12.345mA") == Written(Milli()) + "mA"
  {
    assert Written(Milli()) + "mA" == "12.345mA";
    PreparseColonFree("12.345mA");
  }

  lemma MilliReading()
    ensures SignalParser(1.0, "12.345mA") == Ok(0.012345)
  {
    MilliValue();
    MilliText();
    UnitFactors();
    ParseReading(1.0, "12.345mA", Milli(), "mA");
  }

  lemma KiloPerMinuteReading()
    ensures SignalParser(1.0 / 60.0, "-3k") == Ok(-50.0)
  {
    var x := Numeral(true, "3", None);
    assert Written(x) + "k" == "-3k";
    PreparseColonFree("-3k");
    assert WellFormed(x) && Value(x) == -3.0;
    UnitFactors();
    ParseReading(1.0 / 60.0, "-3k", x, "k");
  }

  lemma BareReading()
    ensures SignalParser(1.0, "7") == Ok(7.0)
  {
    var x := Numeral(false, "7", None);
    assert Written(x) + "" == "7";
    PreparseColonFree("7");
    assert NatValue("7") == 7;
    ParseReading(1.0, "7", x, "");
  }

  lemma ColonFramedPreparse()
    ensures Preparse(":1.5:T") == "1.5T"
  {
    assert ":1.5:T" == [':'] + "1.5" + [':'] + "T";
    assert ':' !in "1.5" && ':' !in "T";
    PreparseFramed("1.5", "T");
  }

  lemma ColonFramedText()
    ensures Preparse(":1.5:T") == Written(Numeral(false, "1", Some("5"))) + "T"
  {
    ColonFramedPreparse();
    assert Written(Numeral(false, "1", Some("5"))) + "T" == "1.5T";
  }

  lemma ColonFramedReading()
    ensures SignalParser(1.0, ":1.5:T") == Ok(1.5)
  {
    var x := Numeral(false, "1", Some("5"));
    ColonFramedText();
    assert WellFormed(x) && Value(x) == 1.5;
    UnitFactors();
    ParseReading(1.0, ":1.5:T", x, "T");
  }
}
