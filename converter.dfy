/** The base converter (src/converter.ts): an immutable digit alphabet, and a conversion that
    checks both bases, strips a leading `-`, checks every digit, parses the magnitude into an
    unbounded natural number and renders that number in the target base. */
module Converter {
  import opened Types
  import opened Numerals
  import opened Trace

  /** The character code of default digit `i`: `0-9`, then `a-z`, then `A-Z`. */
  function DefaultDigitCode(i: nat): int
  {
    if i < 10 then '0' as int + i
    else if i < 36 then 'a' as int + (i - 10)
    else 'A' as int + (i - 36)
  }

  function DefaultDigit(i: int): char
    requires 0 <= i < 62
  {
    DefaultDigitCode(i) as char
  }

  /**
   * The 62 default digits, built from their character codes. `DefaultDigits`
   * is defined through this function because a sequence comprehension over
   * the partial `DefaultDigit` cannot initialize a constant directly.
   */
  function DefaultDigitSequence(): string
  {
    seq(62, DefaultDigit)
  }

  /** `DEFAULT_DIGITS`, the 62 digits `0-9a-zA-Z`, character by character. */
  const DefaultDigits: string := DefaultDigitSequence()

  lemma DefaultDigitAt(i: nat)
    requires i < 62
    ensures |DefaultDigits| == 62 && DefaultDigits[i] as int == DefaultDigitCode(i)
  {
  }

  /** The default alphabet spelled out: the decimal digits, the lower-case letters, the
      upper-case letters. */
  lemma DefaultDigitsSpelledOut()
    ensures DefaultDigits == "0123456789" + "abcdefghijklmnopqrstuvwxyz" + "ABCDEFGHIJKLMNOPQRSTUVWXYZ"
  {
    assert DefaultDigits[..10] == "0123456789";
    LowerCaseDigits();
    UpperCaseDigits();
    assert DefaultDigits == DefaultDigits[..10] + DefaultDigits[10..36] + DefaultDigits[36..];
  }

  lemma LowerCaseDigits()
    ensures DefaultDigits[10..36] == "abcdefghijklmnopqrstuvwxyz"
  {
    forall k | 10 <= k < 36
      ensures DefaultDigits[k] as int == 'a' as int + (k - 10)
    {
      DefaultDigitAt(k);
    }
  }

  lemma UpperCaseDigits()
    ensures DefaultDigits[36..] == "ABCDEFGHIJKLMNOPQRSTUVWXYZ"
  {
    forall k | 36 <= k < 62
      ensures DefaultDigits[k] as int == 'A' as int + (k - 36)
    {
      DefaultDigitAt(k);
    }
  }

  /** The default alphabet has 62 pairwise different digits. */
  lemma DefaultDigitsDistinct()
    ensures |DefaultDigits| == 62
    ensures DistinctPrefix(DefaultDigits, 62)
  {
    forall i, j | 0 <= i < j < 62
      ensures DefaultDigits[i] != DefaultDigits[j]
    {
      DefaultDigitAt(i);
      DefaultDigitAt(j);
    }
  }

  /** The alphabet a converter is built with: `customDigits || DEFAULT_DIGITS`, so both an absent
      and an empty custom string select the default; fewer than two characters is an error. */
  function ChooseAlphabet(customDigits: Option<string>): (r: Result<Alphabet>)
    ensures r.Failure? <==> customDigits.Some? && |customDigits.value| == 1
    ensures r.Failure? ==> r.error == InvalidAlphabet
    ensures r.Success? && customDigits.Some? && customDigits.value != "" ==> r.value == customDigits.value
    ensures r.Success? && (customDigits.None? || customDigits.value == "") ==> r.value == DefaultDigits
  {
    var chosen := if customDigits.Some? && customDigits.value != "" then customDigits.value else DefaultDigits;
    if |chosen| < 2 then Failure(InvalidAlphabet) else Success(chosen)
  }

  /** The message each error carries. */
  function Message(e: ConversionError): string
  {
    match e
    case InvalidAlphabet => "Digit set must contain at least 2 characters"
    case InvalidBase(maxBase) => "Base must be between 2 and " + DecimalText(maxBase)
    case InvalidDigit(c, base) => "Invalid digit '" + [c] + "' for base " + DecimalText(base)
  }

  /** What each message says: the fixed text of its kind, with the maximum base, or the offending
      character and the base, in decimal where the text names them. */
  lemma MessageContents(e: ConversionError)
    ensures var m := Message(e);
      e.InvalidAlphabet? ==> m == "Digit set must contain at least 2 characters"
    ensures var m := Message(e);
      e.InvalidBase? ==>
        |m| > 27 && m[..27] == "Base must be between 2 and " && m[27..] == DecimalText(e.maxBase)
    ensures var m := Message(e);
      e.InvalidDigit? ==>
        |m| > 27 && m[..15] == "Invalid digit '" && m[15] == e.digit && m[16..27] == "' for base " &&
        m[27..] == DecimalText(e.base)
  {
    match e
    case InvalidAlphabet =>
    case InvalidBase(maxBase) =>
      SplitConcat("Base must be between 2 and ", DecimalText(maxBase));
    case InvalidDigit(c, base) =>
      SplitConcat("Invalid digit '" + [c] + "' for base ", DecimalText(base));
  }

  /** The input carries a sign: it starts with a literal `-`. */
  predicate IsNegative(input: string): (b: bool)
    ensures b <==> "-" <= input
  {
    |input| > 0 && input[0] == '-'
  }

  /** The input with one leading `-` removed, if there is one. */
  function Magnitude(input: string): string
  {
    if IsNegative(input) then input[1..] else input
  }

  function SignPrefix(negative: bool): string
  {
    if negative then "-" else ""
  }

  /** Every input is its sign prefix followed by its magnitude. */
  lemma SignSplit(input: string)
    ensures input == SignPrefix(IsNegative(input)) + Magnitude(input)
  {
  }

  predicate BaseInRange(digits: Alphabet, base: int)
  {
    2 <= base <= |digits|
  }

  /** What one call of `convert` returns or throws, for a converter whose alphabet is `digits`. */
  function Conversion(digits: Alphabet, input: string, options: ConversionOptions): (r: Result<ConversionResult>)
    ensures r.Success? ==>
      r.value.input == input && r.value.fromBase == options.fromBase && r.value.toBase == options.toBase
    ensures r.Success? ==> (r.value.steps.Some? <==> options.showSteps)
  {
    var ConversionOptions(fromBase, toBase, showSteps, uppercase) := options;
    if !BaseInRange(digits, fromBase) then Failure(InvalidBase(|digits|))
    else if !BaseInRange(digits, toBase) then Failure(InvalidBase(|digits|))
    else
      var magnitude := Magnitude(input);
      match FirstInvalid(digits, magnitude, fromBase)
      case Some(k) => Failure(InvalidDigit(magnitude[k], fromBase))
      case None =>
        var value := Value(digits, magnitude, fromBase);
        var rendered := Render(digits, value, toBase);
        var output := SignPrefix(IsNegative(input)) + (if uppercase then ToUpper(rendered) else rendered);
        var steps := ParseTrace(digits, magnitude, fromBase) + DivisionLines(digits, value, toBase);
        Success(ConversionResult(input, output, fromBase, toBase, if showSteps then Some(steps) else None))
  }

  class BaseConverter {
    const digits: Alphabet

    constructor (digits: Alphabet)
      ensures this.digits == digits
    {
      this.digits := digits;
    }

    /** `new BaseConverter(customDigits)`, which throws when the chosen alphabet is too short. */
    static method Create(customDigits: Option<string>) returns (r: Result<BaseConverter>)
      ensures r.Failure? <==> customDigits.Some? && |customDigits.value| == 1
      ensures r.Failure? ==> r.error == InvalidAlphabet
      ensures r.Success? ==> fresh(r.value) && r.value.digits == ChooseAlphabet(customDigits).value
    {
      var alphabet :- ChooseAlphabet(customDigits);
      var converter := new BaseConverter(alphabet);
      return Success(converter);
    }

    method Convert(input: string, options: ConversionOptions) returns (r: Result<ConversionResult>)
      ensures r == Conversion(digits, input, options)
    {
      var ConversionOptions(fromBase, toBase, showSteps, uppercase) := options;

      :- ValidateBase(fromBase);
      :- ValidateBase(toBase);

      var isNegative := |input| > 0 && input[0] == '-';
      var cleanInput := if isNegative then input[1..] else input;
      assert cleanInput == Magnitude(input);

      var check := ValidateInput(cleanInput, fromBase);
      if check.Fail? {
        ghost var k :| 0 <= k < |cleanInput| && cleanInput[k] !in digits[..fromBase] &&
                       (forall j :: 0 <= j < k ==> cleanInput[j] in digits[..fromBase]) &&
                       check.error == InvalidDigit(cleanInput[k], fromBase);
        assert FirstInvalid(digits, cleanInput, fromBase) == Some(k);
        ConversionOfInvalidInput(digits, input, options, k);
        return Failure(check.error);
      }
      assert FirstInvalid(digits, cleanInput, fromBase).None?;

      var steps: seq<string> := [];
      var decimalValue, result;
      decimalValue, steps := ToDecimal(cleanInput, fromBase, steps, showSteps);
      EmptyConcat(if showSteps then ParseTrace(digits, cleanInput, fromBase) else []);
      result, steps := FromDecimal(decimalValue, toBase, steps, showSteps);

      var output := (if isNegative then "-" else "") + (if uppercase then ToUpper(result) else result);
      r := Success(ConversionResult(input, output, fromBase, toBase, if showSteps then Some(steps) else None));
      ConversionOfValidInput(digits, input, options);
    }

    method ValidateBase(base: int) returns (o: Outcome)
      ensures o.Pass? <==> 2 <= base <= |digits|
      ensures o.Fail? ==> o.error == InvalidBase(|digits|)
    {
      if base < 2 || base > |digits| {
        return Fail(InvalidBase(|digits|));
      }
      return Pass;
    }

    /** Passes when every character is among the first `base` digits; otherwise fails naming
        the first character that is not. */
    method ValidateInput(input: string, base: int) returns (o: Outcome)
      requires 2 <= base <= |digits|
      ensures o.Pass? <==> forall i :: 0 <= i < |input| ==> input[i] in digits[..base]
      ensures o.Fail? ==>
        exists k :: 0 <= k < |input| && input[k] !in digits[..base] &&
                    (forall j :: 0 <= j < k ==> input[j] in digits[..base]) &&
                    o.error == InvalidDigit(input[k], base)
    {
      var validDigits := digits[..base];
      for i := 0 to |input|
        invariant forall j :: 0 <= j < i ==> input[j] in validDigits
      {
        if input[i] !in validDigits {
          return Fail(InvalidDigit(input[i], base));
        }
      }
      return Pass;
    }

    /** Parses `input` into its value in `base` by summing each digit times its place value,
        appending a line per digit and the total to `steps` when asked. */
    method ToDecimal(input: string, base: int, steps: seq<string>, showSteps: bool)
      returns (result: nat, steps': seq<string>)
      requires 2 <= base <= |digits|
      requires ValidDigits(digits, input, base)
      ensures result == Value(digits, input, base)
      ensures steps' == steps + (if showSteps then ParseTrace(digits, input, base) else [])
    {
      var sum := 0;
      steps' := steps;
      var len := |input|;
      for i := 0 to len
        invariant sum == PositionalSum(digits, input, base, i)
        invariant steps' == steps + (if showSteps then DigitLines(digits, input, base, i) else [])
      {
        IndexOfValid(digits, input[i], base);
        var digit := IndexOf(digits, input[i]);
        var power := len - 1 - i;
        var term := digit * Pow(base, power);
        sum := sum + term;
        if showSteps {
          assert term >= 0 by { MulNonNegative(digit, Pow(base, power)); }
          var line := DigitLine(input[i], base, power, term);
          assert DigitLines(digits, input, base, i + 1) == DigitLines(digits, input, base, i) + [line];
          AppendAssociative(steps, DigitLines(digits, input, base, i), [line]);
          steps' := steps' + [line];
        }
      }
      PositionalSumIsValue(digits, input, base);
      result := sum;
      if showSteps {
        steps' := steps' + [SummaryLine(result)];
      }
    }

    /** Renders `value` in `base` by repeated division, the remainders giving the digits from the
        least significant up; appends a line per division to `steps` when asked. */
    method FromDecimal(value: nat, base: int, steps: seq<string>, showSteps: bool)
      returns (result: string, steps': seq<string>)
      requires 2 <= base <= |digits|
      ensures result == Render(digits, value, base)
      ensures steps' == steps + (if showSteps then DivisionLines(digits, value, base) else [])
    {
      steps' := steps;
      if value == 0 {
        return [digits[0]], steps';
      }

      result := "";
      var remaining: nat := value;
      while remaining > 0
        invariant Expansion(digits, remaining, base) + result == Expansion(digits, value, base)
        invariant steps' + (if showSteps then DivisionLines(digits, remaining, base) else [])
               == steps + (if showSteps then DivisionLines(digits, value, base) else [])
        decreases remaining
      {
        var digit := remaining % base;
        DivShrinks(remaining, base);
        ghost var higher := Expansion(digits, remaining / base, base);
        assert Expansion(digits, remaining, base) == higher + [digits[digit]];
        AppendAssociative(higher, [digits[digit]], result);
        result := [digits[digit]] + result;
        if showSteps {
          var line := DivisionLine(remaining, base, digit, digits[digit]);
          AppendAssociative(steps', [line], DivisionLines(digits, remaining / base, base));
          steps' := steps' + [line];
        }
        remaining := remaining / base;
      }
    }
  }

  /** `Conversion` on bases in range and an input whose magnitude has only valid digits. */
  lemma ConversionOfValidInput(digits: Alphabet, input: string, options: ConversionOptions)
    requires BaseInRange(digits, options.fromBase) && BaseInRange(digits, options.toBase)
    requires ValidDigits(digits, Magnitude(input), options.fromBase)
    ensures var m := Magnitude(input);
      var value := Value(digits, m, options.fromBase);
      var rendered := Render(digits, value, options.toBase);
      var steps := ParseTrace(digits, m, options.fromBase) + DivisionLines(digits, value, options.toBase);
      Conversion(digits, input, options) ==
        Success(ConversionResult(input,
          SignPrefix(IsNegative(input)) + (if options.uppercase then ToUpper(rendered) else rendered),
          options.fromBase, options.toBase, if options.showSteps then Some(steps) else None))
  {
  }

  /** `Conversion` on bases in range and an input whose magnitude has an invalid digit at `k`. */
  lemma ConversionOfInvalidInput(digits: Alphabet, input: string, options: ConversionOptions, k: nat)
    requires BaseInRange(digits, options.fromBase) && BaseInRange(digits, options.toBase)
    requires FirstInvalid(digits, Magnitude(input), options.fromBase) == Some(k)
    ensures k < |Magnitude(input)|
    ensures Conversion(digits, input, options) == Failure(InvalidDigit(Magnitude(input)[k], options.fromBase))
  {
  }

  /** A conversion succeeds only on bases in range and an input whose magnitude has only valid
      digits. */
  lemma ConversionSucceeded(digits: Alphabet, input: string, options: ConversionOptions)
    requires Conversion(digits, input, options).Success?
    ensures BaseInRange(digits, options.fromBase) && BaseInRange(digits, options.toBase)
    ensures ValidDigits(digits, Magnitude(input), options.fromBase)
  {
  }
}
