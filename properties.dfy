/** What one conversion promises its caller, stated over the specification `Conversion` that
    `BaseConverter.Convert` is proved to compute. */
module ConverterProperties {
  import opened Types
  import opened Numerals
  import opened Trace
  import opened Converter

  /** Both bases are checked before the input is looked at: a base outside `[2, |digits|]` fails
      with the range error whatever the input is, and that error arises in no other way. */
  lemma BaseErrors(digits: Alphabet, input: string, options: ConversionOptions)
    ensures var r := Conversion(digits, input, options);
      (r.Failure? && r.error.InvalidBase?) <==>
        !BaseInRange(digits, options.fromBase) || !BaseInRange(digits, options.toBase)
    ensures var r := Conversion(digits, input, options);
      r.Failure? && r.error.InvalidBase? ==> r.error.maxBase == |digits|
  {
  }

  /** With both bases in range, a conversion fails exactly when some character of the
      sign-stripped input is not among the first `fromBase` digits, and the error names the
      first such character and the base. */
  lemma DigitErrors(digits: Alphabet, input: string, options: ConversionOptions)
    requires BaseInRange(digits, options.fromBase) && BaseInRange(digits, options.toBase)
    ensures var r := Conversion(digits, input, options);
      var m := Magnitude(input);
      r.Failure? <==> exists k :: 0 <= k < |m| && m[k] !in digits[..options.fromBase]
    ensures var r := Conversion(digits, input, options);
      var m := Magnitude(input);
      r.Failure? ==>
        exists k :: 0 <= k < |m| && m[k] !in digits[..options.fromBase] &&
                    (forall j :: 0 <= j < k ==> m[j] in digits[..options.fromBase]) &&
                    r.error == InvalidDigit(m[k], options.fromBase)
  {
    var m := Magnitude(input);
    match FirstInvalid(digits, m, options.fromBase)
    case None =>
    case Some(k) =>
  }

  /** The output is signed when the input is; and when `-` is not a digit of the target base,
      the output is signed only when the input is. A signed zero stays signed. */
  lemma SignPreserved(digits: Alphabet, input: string, options: ConversionOptions)
    requires Conversion(digits, input, options).Success?
    ensures IsNegative(input) ==> IsNegative(Conversion(digits, input, options).value.output)
    ensures '-' !in digits[..options.toBase] ==>
      (IsNegative(Conversion(digits, input, options).value.output) <==> IsNegative(input))
  {
    var m := Magnitude(input);
    var rendered := Render(digits, Value(digits, m, options.fromBase), options.toBase);
    var shown := if options.uppercase then ToUpper(rendered) else rendered;
    if !IsNegative(input) && '-' !in digits[..options.toBase] {
      assert rendered[0] in digits[..options.toBase];
      if options.uppercase {
        assert shown[0] == AsciiUpper(rendered[0]);
      }
    }
  }

  /** Converting `-m` is converting `m` and putting the sign back: the same success or error,
      the output with a `-` in front, the same trace. */
  lemma NegatedConversion(digits: Alphabet, m: string, options: ConversionOptions)
    requires !IsNegative(m)
    ensures var signed := Conversion(digits, "-" + m, options);
      var unsigned := Conversion(digits, m, options);
      signed.Success? == unsigned.Success? &&
      (signed.Failure? ==> signed.error == unsigned.error) &&
      (signed.Success? ==>
        signed.value.output == "-" + unsigned.value.output &&
        signed.value.steps == unsigned.value.steps)
  {
    assert Magnitude("-" + m) == m;
    if BaseInRange(digits, options.fromBase) && BaseInRange(digits, options.toBase) &&
       FirstInvalid(digits, m, options.fromBase).None? {
      var rendered := Render(digits, Value(digits, m, options.fromBase), options.toBase);
      EmptyConcat(if options.uppercase then ToUpper(rendered) else rendered);
    }
  }

  /** The uppercase flag changes nothing but the case of the rendered magnitude: not which inputs
      are accepted, not the error, not the sign, not the trace, not the length of the output. */
  lemma UppercaseOnlyRenders(digits: Alphabet, input: string, fromBase: int, toBase: int, showSteps: bool)
    ensures var lower := Conversion(digits, input, ConversionOptions(fromBase, toBase, showSteps, false));
      var upper := Conversion(digits, input, ConversionOptions(fromBase, toBase, showSteps, true));
      lower.Success? == upper.Success? &&
      (lower.Failure? ==> upper.error == lower.error) &&
      (lower.Success? ==>
        var p := |SignPrefix(IsNegative(input))|;
        |upper.value.output| == |lower.value.output| &&
        upper.value.output[..p] == lower.value.output[..p] &&
        upper.value.output[p..] == ToUpper(lower.value.output[p..]) &&
        upper.value.steps == lower.value.steps)
  {
    var lower := Conversion(digits, input, ConversionOptions(fromBase, toBase, showSteps, false));
    if lower.Success? {
      var p := |SignPrefix(IsNegative(input))|;
      var rendered := Render(digits, Value(digits, Magnitude(input), fromBase), toBase);
      assert lower.value.output[p..] == rendered;
    }
  }

  /** The trace is there exactly when asked for. It holds one line per character of the magnitude,
      then the decimal value, then one line per division, one for each digit of the value in the
      target base (none for zero); so it is never empty. */
  lemma TraceShape(digits: Alphabet, input: string, options: ConversionOptions)
    requires Conversion(digits, input, options).Success?
    ensures var steps := Conversion(digits, input, options).value.steps;
      steps.Some? <==> options.showSteps
    ensures var steps := Conversion(digits, input, options).value.steps;
      var m := Magnitude(input);
      var v := Value(digits, m, options.fromBase);
      steps.Some? ==>
        |steps.value| == |m| + 1 + |Expansion(digits, v, options.toBase)| &&
        steps.value[|m|] == SummaryLine(v)
  {
  }

  /** A numeral the converter rendered in `base` (signed or not) is accepted when fed back in
      that base and denotes the value it was rendered from, provided the first `base` digits are
      distinct and do not include `-`. */
  lemma ConvertRendered(digits: Alphabet, negative: bool, v: nat, base: int, toBase: int, showSteps: bool)
    requires BaseInRange(digits, base) && BaseInRange(digits, toBase)
    requires DistinctPrefix(digits, base)
    requires '-' !in digits[..base]
    ensures var r := Conversion(digits, SignPrefix(negative) + Render(digits, v, base),
                                ConversionOptions(base, toBase, showSteps, false));
      r.Success? && r.value.output == SignPrefix(negative) + Render(digits, v, toBase)
  {
    var rendered := Render(digits, v, base);
    var numeral := SignPrefix(negative) + rendered;
    assert rendered[0] in digits[..base];
    assert Magnitude(numeral) == rendered by {
      if negative {
        assert numeral[1..] == rendered;
      } else {
        EmptyConcat(rendered);
      }
    }
    assert IsNegative(numeral) == negative;
    ValueOfRender(digits, v, base);
    assert FirstInvalid(digits, rendered, base).None?;
  }

  /** Converting there and back: the output of a conversion (without uppercase, with alphabets
      free of duplicates and `-` not a digit of the target base) converts back into the source
      base without error, to the input's sign followed by the canonical numeral of its value;
      that is the input itself when the input had no superfluous leading zeros. */
  lemma ConvertBack(digits: Alphabet, input: string, fromBase: int, toBase: int, showSteps: bool)
    requires BaseInRange(digits, fromBase) && BaseInRange(digits, toBase)
    requires DistinctPrefix(digits, fromBase) && DistinctPrefix(digits, toBase)
    requires '-' !in digits[..toBase]
    requires Conversion(digits, input, ConversionOptions(fromBase, toBase, showSteps, false)).Success?
    ensures ValidDigits(digits, Magnitude(input), fromBase)
    ensures var there := Conversion(digits, input, ConversionOptions(fromBase, toBase, showSteps, false)).value.output;
      var back := Conversion(digits, there, ConversionOptions(toBase, fromBase, showSteps, false));
      back.Success? &&
      back.value.output ==
        SignPrefix(IsNegative(input)) + Render(digits, Value(digits, Magnitude(input), fromBase), fromBase)
    ensures var there := Conversion(digits, input, ConversionOptions(fromBase, toBase, showSteps, false)).value.output;
      var back := Conversion(digits, there, ConversionOptions(toBase, fromBase, showSteps, false));
      Canonical(digits, Magnitude(input)) ==> back.Success? && back.value.output == input
  {
    var options := ConversionOptions(fromBase, toBase, showSteps, false);
    var m := Magnitude(input);
    ConversionSucceeded(digits, input, options);
    var v := Value(digits, m, fromBase);
    var sign := SignPrefix(IsNegative(input));
    assert Conversion(digits, input, options).value.output == sign + Render(digits, v, toBase) by {
      ConversionOfValidInput(digits, input, options);
    }
    ConvertRendered(digits, IsNegative(input), v, toBase, fromBase, showSteps);
    if Canonical(digits, m) {
      RenderOfValue(digits, m, fromBase);
      assert sign + m == input;
    }
  }

  /** Any run of zero digits, the empty magnitude included, converts to the single zero digit
      of the target base. */
  lemma ZerosConvertToZero(digits: Alphabet, input: string, fromBase: int, toBase: int, showSteps: bool)
    requires BaseInRange(digits, fromBase) && BaseInRange(digits, toBase)
    requires digits[0] != '-'
    requires forall i :: 0 <= i < |input| ==> input[i] == digits[0]
    ensures var r := Conversion(digits, input, ConversionOptions(fromBase, toBase, showSteps, false));
      r.Success? && r.value.output == [digits[0]]
  {
    assert Magnitude(input) == input;
    ValueOfZeros(digits, input, fromBase);
  }

  /** Only the first `fromBase` and `toBase` characters of the alphabet matter: two converters
      whose alphabets admit both bases and agree on those characters give the same result, or the
      same error, for every input and every flag. */
  lemma ConversionAgrees(d1: Alphabet, d2: Alphabet, input: string, options: ConversionOptions)
    requires BaseInRange(d1, options.fromBase) && BaseInRange(d1, options.toBase)
    requires BaseInRange(d2, options.fromBase) && BaseInRange(d2, options.toBase)
    requires SamePrefix(d1, d2, options.fromBase) && SamePrefix(d1, d2, options.toBase)
    ensures Conversion(d1, input, options) == Conversion(d2, input, options)
  {
    var m := Magnitude(input);
    FirstInvalidPrefix(d1, d2, m, options.fromBase);
    match FirstInvalid(d1, m, options.fromBase)
    case Some(k) =>
      ConversionOfInvalidInput(d1, input, options, k);
      ConversionOfInvalidInput(d2, input, options, k);
    case None =>
      ValuePrefix(d1, d2, m, options.fromBase);
      var v := Value(d1, m, options.fromBase);
      RenderPrefix(d1, d2, v, options.toBase);
      DigitLinesPrefix(d1, d2, m, options.fromBase, |m|);
      DivisionLinesPrefix(d1, d2, v, options.toBase);
      ConversionOfValidInput(d1, input, options);
      ConversionOfValidInput(d2, input, options);
  }
}
