/** The scenarios of the converter's unit tests (src/__tests__/converter.test.ts), each stated as
    what the specification `Conversion` gives for that call: with the default alphabet, or with
    the alphabet `01` where a test builds its own converter. */
module ConverterScenarios {
  import opened Types
  import opened Numerals
  import opened Converter
  import opened ConverterProperties

  /** One division step of rendering with the default alphabet: the digit of remainder
      `v % base` is the character whose code `DefaultDigitCode` gives. */
  lemma DefaultExpansionStep(v: nat, base: nat, prefix: string, c: char)
    requires 2 <= base <= 62 && v > 0
    requires Expansion(DefaultDigits, v / base, base) == prefix
    requires DefaultDigitCode(v % base) == c as int
    ensures Expansion(DefaultDigits, v, base) == prefix + [c]
  {
    DefaultDigitAt(v % base);
  }

  /** A conversion whose input magnitude is the expansion of `v` in `fromBase` outputs the
      expansion of `v` in `toBase`, signed like the input. */
  lemma DefaultConversion(input: string, fromBase: nat, toBase: nat, showSteps: bool, uppercase: bool,
                          v: nat, out: string)
    requires 2 <= fromBase <= 62 && 2 <= toBase <= 62 && v > 0
    requires Expansion(DefaultDigits, v, fromBase) == Magnitude(input)
    requires Expansion(DefaultDigits, v, toBase) == out
    ensures var r := Conversion(DefaultDigits, input, ConversionOptions(fromBase, toBase, showSteps, uppercase));
      r.Success? &&
      r.value.output == SignPrefix(IsNegative(input)) + (if uppercase then ToUpper(out) else out)
  {
    DefaultDigitsDistinct();
    ValueOfExpansion(DefaultDigits, v, fromBase);
  }

  lemma TenExpansions()
    ensures Expansion(DefaultDigits, 10, 10) == "10"
    ensures Expansion(DefaultDigits, 10, 2) == "1010"
  {
    DefaultExpansionStep(1, 10, "", '1');
    DefaultExpansionStep(10, 10, "1", '0');
    DefaultExpansionStep(1, 2, "", '1');
    DefaultExpansionStep(2, 2, "1", '0');
    DefaultExpansionStep(5, 2, "10", '1');
    DefaultExpansionStep(10, 2, "101", '0');
  }

  lemma TwoFiftyFiveExpansions()
    ensures Expansion(DefaultDigits, 255, 10) == "255"
    ensures Expansion(DefaultDigits, 255, 16) == "ff"
  {
    DefaultExpansionStep(2, 10, "", '2');
    DefaultExpansionStep(25, 10, "2", '5');
    DefaultExpansionStep(255, 10, "25", '5');
    DefaultExpansionStep(15, 16, "", 'f');
    DefaultExpansionStep(255, 16, "f", 'f');
  }

  /** `10` in base 10 is `1010` in base 2. */
  lemma DecimalToBinary()
    ensures var r := Conversion(DefaultDigits, "10", ConversionOptions(10, 2, false, false));
      r.Success? && r.value.output == "1010"
  {
    TenExpansions();
    DefaultConversion("10", 10, 2, false, false, 10, "1010");
  }

  /** `1010` in base 2 is `10` in base 10. */
  lemma BinaryToDecimal()
    ensures var r := Conversion(DefaultDigits, "1010", ConversionOptions(2, 10, false, false));
      r.Success? && r.value.output == "10"
  {
    TenExpansions();
    DefaultConversion("1010", 2, 10, false, false, 10, "10");
  }

  /** `255` is `ff` in base 16. */
  lemma DecimalToHex()
    ensures var r := Conversion(DefaultDigits, "255", ConversionOptions(10, 16, false, false));
      r.Success? && r.value.output == "ff"
  {
    TwoFiftyFiveExpansions();
    DefaultConversion("255", 10, 16, false, false, 255, "ff");
  }

  /** `255` is `FF` in base 16 when upper case is asked for. */
  lemma DecimalToUppercaseHex()
    ensures var r := Conversion(DefaultDigits, "255", ConversionOptions(10, 16, false, true));
      r.Success? && r.value.output == "FF"
  {
    assert ToUpper("ff") == "FF";
    assert Conversion(DefaultDigits, "255", ConversionOptions(10, 16, false, true)).value.output == ToUpper("ff") by {
      TwoFiftyFiveExpansions();
      DefaultConversion("255", 10, 16, false, true, 255, "ff");
    }
  }

  /** `ff` in base 16 is `255` in base 10. */
  lemma HexToDecimal()
    ensures var r := Conversion(DefaultDigits, "ff", ConversionOptions(16, 10, false, false));
      r.Success? && r.value.output == "255"
  {
    TwoFiftyFiveExpansions();
    DefaultConversion("ff", 16, 10, false, false, 255, "255");
  }

  /** Zero converts to the single digit `0`. */
  lemma ZeroToBinary()
    ensures var r := Conversion(DefaultDigits, "0", ConversionOptions(10, 2, false, false));
      r.Success? && r.value.output == "0"
  {
    DefaultDigitAt(0);
    ZerosConvertToZero(DefaultDigits, "0", 10, 2, false);
  }

  /** `-10` in base 10 is `-1010` in base 2. */
  lemma NegativeDecimalToBinary()
    ensures var r := Conversion(DefaultDigits, "-10", ConversionOptions(10, 2, false, false));
      r.Success? && r.value.output == "-1010"
  {
    var options := ConversionOptions(10, 2, false, false);
    assert "-" + "10" == "-10";
    assert "-" + "1010" == "-1010";
    assert Conversion(DefaultDigits, "-" + "10", options).value.output == "-" + "1010" by {
      DecimalToBinary();
      NegatedConversion(DefaultDigits, "10", options);
    }
  }

  /** `-ff` in base 16 is `-255` in base 10. */
  lemma NegativeHexToDecimal()
    ensures var r := Conversion(DefaultDigits, "-ff", ConversionOptions(16, 10, false, false));
      r.Success? && r.value.output == "-255"
  {
    var options := ConversionOptions(16, 10, false, false);
    assert "-" + "ff" == "-ff";
    assert "-" + "255" == "-255";
    assert Conversion(DefaultDigits, "-" + "ff", options).value.output == "-" + "255" by {
      HexToDecimal();
      NegatedConversion(DefaultDigits, "ff", options);
    }
  }

  /** A trace is returned, and is not empty, exactly when one is asked for. */
  lemma StepsOnRequest(showSteps: bool)
    ensures var r := Conversion(DefaultDigits, "10", ConversionOptions(10, 2, showSteps, false));
      r.Success? && (r.value.steps.Some? <==> showSteps) && (showSteps ==> |r.value.steps.value| > 0)
  {
    TenExpansions();
    DefaultConversion("10", 10, 2, showSteps, false, 10, "1010");
    TraceShape(DefaultDigits, "10", ConversionOptions(10, 2, showSteps, false));
  }

  lemma LargeDecimalExpansion()
    ensures Expansion(DefaultDigits, 9007199254740991, 10) == "9007199254740991"
  {
    DefaultExpansionStep(9, 10, "", '9');
    DefaultExpansionStep(90, 10, "9", '0');
    DefaultExpansionStep(900, 10, "90", '0');
    DefaultExpansionStep(9007, 10, "900", '7');
    DefaultExpansionStep(90071, 10, "9007", '1');
    DefaultExpansionStep(900719, 10, "90071", '9');
    DefaultExpansionStep(9007199, 10, "900719", '9');
    DefaultExpansionStep(90071992, 10, "9007199", '2');
    DefaultExpansionStep(900719925, 10, "90071992", '5');
    DefaultExpansionStep(9007199254, 10, "900719925", '4');
    DefaultExpansionStep(90071992547, 10, "9007199254", '7');
    DefaultExpansionStep(900719925474, 10, "90071992547", '4');
    DefaultExpansionStep(9007199254740, 10, "900719925474", '0');
    DefaultExpansionStep(90071992547409, 10, "9007199254740", '9');
    DefaultExpansionStep(900719925474099, 10, "90071992547409", '9');
    DefaultExpansionStep(9007199254740991, 10, "900719925474099", '1');
  }

  lemma LargeHexExpansion()
    ensures Expansion(DefaultDigits, 9007199254740991, 16) == "1fffffffffffff"
  {
    DefaultExpansionStep(1, 16, "", '1');
    DefaultExpansionStep(31, 16, "1", 'f');
    DefaultExpansionStep(511, 16, "1f", 'f');
    DefaultExpansionStep(8191, 16, "1ff", 'f');
    DefaultExpansionStep(131071, 16, "1fff", 'f');
    DefaultExpansionStep(2097151, 16, "1ffff", 'f');
    DefaultExpansionStep(33554431, 16, "1fffff", 'f');
    DefaultExpansionStep(536870911, 16, "1ffffff", 'f');
    DefaultExpansionStep(8589934591, 16, "1fffffff", 'f');
    DefaultExpansionStep(137438953471, 16, "1ffffffff", 'f');
    DefaultExpansionStep(2199023255551, 16, "1fffffffff", 'f');
    DefaultExpansionStep(35184372088831, 16, "1ffffffffff", 'f');
    DefaultExpansionStep(562949953421311, 16, "1fffffffffff", 'f');
    DefaultExpansionStep(9007199254740991, 16, "1ffffffffffff", 'f');
  }

  /** 2^53 - 1, the largest integer a double holds exactly, converts without loss. */
  lemma LargeDecimalToHex()
    ensures var r := Conversion(DefaultDigits, "9007199254740991", ConversionOptions(10, 16, false, false));
      r.Success? && r.value.output == "1fffffffffffff"
  {
    LargeDecimalExpansion();
    LargeHexExpansion();
    DefaultConversion("9007199254740991", 10, 16, false, false, 9007199254740991, "1fffffffffffff");
  }

  lemma HundredExpansions()
    ensures Expansion(DefaultDigits, 100, 10) == "100"
    ensures Expansion(DefaultDigits, 100, 62) == "1C"
  {
    DefaultExpansionStep(1, 10, "", '1');
    DefaultExpansionStep(10, 10, "1", '0');
    DefaultExpansionStep(100, 10, "10", '0');
    DefaultExpansionStep(1, 62, "", '1');
    DefaultExpansionStep(100, 62, "1", 'C');
  }

  /** `100` is `1C` in base 62: the digits after `z` are the capitals. */
  lemma DecimalToBase62()
    ensures var r := Conversion(DefaultDigits, "100", ConversionOptions(10, 62, false, false));
      r.Success? && r.value.output == "1C"
  {
    HundredExpansions();
    DefaultConversion("100", 10, 62, false, false, 100, "1C");
  }

  /** A one-character digit set is refused; no digit set at all selects the default one. */
  lemma ShortAlphabetRefused()
    ensures ChooseAlphabet(Some("0")) == Failure(InvalidAlphabet)
    ensures Message(InvalidAlphabet) == "Digit set must contain at least 2 characters"
    ensures ChooseAlphabet(None) == Success(DefaultDigits)
  {
  }

  /** Base 1 and base 63 are out of range for the 62-digit default alphabet. */
  lemma BasesOutOfRange()
    ensures Conversion(DefaultDigits, "10", ConversionOptions(1, 10, false, false)) == Failure(InvalidBase(62))
    ensures Conversion(DefaultDigits, "10", ConversionOptions(10, 63, false, false)) == Failure(InvalidBase(62))
    ensures Message(InvalidBase(62)) == "Base must be between 2 and 62"
  {
  }

  /** `2` is not a binary digit. */
  lemma NotABinaryDigit()
    ensures Conversion(DefaultDigits, "2", ConversionOptions(2, 10, false, false)) == Failure(InvalidDigit('2', 2))
    ensures Message(InvalidDigit('2', 2)) == "Invalid digit '2' for base 2"
  {
    assert DefaultDigits[..2] == "01";
    assert FirstInvalid(DefaultDigits, "2", 2) == Some(0);
  }

  /** `g` is not a hexadecimal digit. */
  lemma NotAHexDigit()
    ensures Conversion(DefaultDigits, "g", ConversionOptions(16, 10, false, false)) == Failure(InvalidDigit('g', 16))
  {
    assert DefaultDigits[..16] == "0123456789abcdef";
    assert FirstInvalid(DefaultDigits, "g", 16) == Some(0);
  }

  /** With the two-digit alphabet `01` the largest base is 2, so a conversion from base 10 is
      refused, whatever the input. */
  lemma BinaryAlphabetRefusesDecimal()
    ensures Conversion("01", "10", ConversionOptions(10, 2, false, false)) == Failure(InvalidBase(2))
  {
  }

  /** A converter built with the alphabet `01` converts from base 2 to base 2 exactly as the
      default converter does, whatever the input and flags. */
  lemma BinaryAlphabetAgrees(input: string, showSteps: bool, uppercase: bool)
    ensures var options := ConversionOptions(2, 2, showSteps, uppercase);
      Conversion("01", input, options) == Conversion(DefaultDigits, input, options)
  {
    DefaultDigitAt(0);
    DefaultDigitAt(1);
    assert DefaultDigits[..2] == "01";
    ConversionAgrees("01", DefaultDigits, input, ConversionOptions(2, 2, showSteps, uppercase));
  }
}
