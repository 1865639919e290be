# base-convert: a verified model of `BaseConverter`

`base-convert` converts integers written as digit strings from one base to another. Its core is
the `BaseConverter` class (src/converter.ts). A converter holds a digit alphabet: a string whose
index gives each digit's value. The default alphabet has 62 characters, `0-9a-zA-Z`; a custom
one may be passed in. `convert(input, options)` works in this order:

1. it checks both bases against the alphabet length;
2. it strips one leading `-`;
3. it checks every remaining character against the first `fromBase` digits;
4. it parses the magnitude into an unbounded integer with a positional sum;
5. it renders that integer in `toBase` by repeated division;
6. it puts the sign back and, if asked, upper-cases the result.

On request it also records a human-readable trace of the derivation (`steps`).

The model has six modules, one per file:

- `Types` (types.dfy) holds the options and result records and the three kinds of
  `ConversionError`. It also holds `Result` and `Outcome`, which stand in for a method that
  returns a value or throws.
- `Numerals` (numerals.dfy) is the pure specification of numerals over an alphabet:
  - JavaScript's `indexOf`;
  - the value of a digit string (`Value`), its positional sum, and the digit string of a value
    (`Expansion`, `Render`);
  - the lemmas that tie these together: both round trips, digit counts, leading digits.
- `Trace` (trace.dfy) holds the trace lines and their sequences.
- `Converter` (converter.dfy) holds:
  - the default alphabet and the choice of alphabet;
  - the specification function `Conversion`, which is what one `convert` call returns or throws;
  - the class `BaseConverter`. Its methods follow the source's loops. Each is proved against the
    specification functions: `Convert` returns exactly `Conversion`, `ToDecimal` returns `Value`
    and `FromDecimal` returns `Render`, with the trace each appends.
- `ConverterProperties` (properties.dfy) proves what a conversion promises: error order, the
  sign, the upper-case flag, the trace shape, converting there and back, and that only the
  digits of the two bases matter in the alphabet.
- `ConverterScenarios` (scenarios.dfy) states each unit-test scenario as a lemma about
  `Conversion`: with the default alphabet, or with the alphabet `01` where the test builds its
  own converter.

A thrown `ConversionError` is a `Failure` carrying the error kind. `Message` gives the text the
source puts in each error.

## Model

| member | source | states |
|---|---|---|
| Converter.DefaultDigitsSpelledOut | src/converter.ts:4 | the default alphabet is `0-9`, then `a-z`, then `A-Z`, character by character |
| Converter.DefaultDigitsDistinct | src/converter.ts:4 | the default alphabet has 62 characters, pairwise different |
| Converter.ChooseAlphabet | src/converter.ts:9-13 | choosing the alphabet fails, with the alphabet error, exactly when a custom string of length 1 is given; a non-empty custom string is used as is; an absent or empty one selects the default |
| Converter.BaseConverter.Create | src/converter.ts:9-14 | construction fails exactly when `ChooseAlphabet` does, with the alphabet error; otherwise it yields a fresh converter holding the chosen alphabet |
| Converter.BaseConverter.constructor | src/converter.ts:10 | the converter holds the alphabet it is given |
| Converter.Conversion | src/converter.ts:16-40 | a successful result echoes the input and both bases; it carries a trace exactly when `showSteps` is set |
| Converter.BaseConverter.Convert | src/converter.ts:16-40 | the result or error of `convert` is exactly `Conversion` of the converter's alphabet, the input and the options |
| Converter.BaseConverter.ValidateBase | src/converter.ts:42-46 | passes exactly when the base lies between 2 and the alphabet's length; otherwise fails with the range error naming that length |
| Converter.BaseConverter.ValidateInput | src/converter.ts:48-55 | passes exactly when every character is among the first `base` digits; otherwise fails naming the first character that is not, and the base |
| Converter.BaseConverter.ToDecimal | src/converter.ts:57-76 | returns `Value` of the input, proved equal to the sum of each digit's index times its place value; appends one line per digit and then the decimal value when asked, and nothing otherwise |
| Converter.BaseConverter.FromDecimal | src/converter.ts:78-96 | returns `Render` of the value: the zero digit for 0, otherwise the remainders' digits, most significant first; appends one line per division when asked, and nothing otherwise |
| Converter.ConversionOfValidInput | src/converter.ts:22-39 | with both bases in range and only valid digits, the result is the signed, optionally upper-cased rendering of the magnitude's value, with the parse trace followed by the division trace |
| Converter.ConversionOfInvalidInput | src/converter.ts:25 | with both bases in range, the first invalid character of the magnitude, at position `k`, gives the digit error for that character and `fromBase` |
| Converter.MessageContents | src/converter.ts:12-52 | the alphabet error reads `Digit set must contain at least 2 characters`; the range error reads `Base must be between 2 and ` followed by the maximum base in decimal; the digit error reads `Invalid digit '`, the character, `' for base ` and the base in decimal |
| Converter.IsNegative | src/converter.ts:22 | an input is negative exactly when `-` is a prefix of it, as `startsWith('-')` tests |
| Converter.SignSplit | src/converter.ts:22-23 | every input is its sign prefix followed by its magnitude, so stripping the sign loses nothing |
| Converter.ConversionSucceeded | src/converter.ts:19-25 | a successful conversion had both bases in range and a magnitude of valid digits |
| Numerals.IndexOf | src/converter.ts:62 | -1 exactly when the character is absent; otherwise the index of its first occurrence |
| Numerals.IndexOfValid | src/converter.ts:51-62 | a character accepted as a digit of `base` has an index below `base`, whatever duplicates the rest of the alphabet holds |
| Numerals.IndexOfDistinct | src/converter.ts:62 | with distinct digits, the index of the digit at `k` is `k` |
| Numerals.FirstInvalid | src/converter.ts:48-55 | none exactly when every character is a digit of `base`; otherwise a position holding a non-digit with only digits before it |
| Numerals.Pow | src/converter.ts:64 | a power of a positive base is positive |
| Numerals.Value | src/converter.ts:57-76 | the value of a string of `n` digits in `base` is below `base^n` |
| Numerals.PositionalSum | src/converter.ts:61-65 | the running sum of the parsing loop, each digit's index times its place value, is never negative |
| Numerals.PositionalSumOfPrefix | src/converter.ts:61-65 | after `n` loop steps the running sum is the value of the first `n` digits, shifted by the places still to come |
| Numerals.PositionalSumIsValue | src/converter.ts:57-76 | the full positional sum equals `Value` |
| Numerals.ValueAppend | src/converter.ts:64 | appending a digit multiplies the value by the base and adds that digit's index |
| Numerals.Expansion | src/converter.ts:84-93 | the division loop emits only digits of `base`, and nothing exactly for 0 |
| Numerals.Render | src/converter.ts:78-96 | the output of `fromDecimal` is a non-empty string of digits of `base` |
| Numerals.ValueOfExpansion | src/converter.ts:84-93 | with distinct digits, reading the expansion of `v` back gives `v` |
| Numerals.ValueOfRender | src/converter.ts:78-96 | with distinct digits, reading the rendering of `v` back gives `v` |
| Numerals.ExpansionOfValue | src/converter.ts:57-96 | with distinct digits, a numeral not starting with the zero digit, the empty one included, is the expansion of its own value |
| Numerals.ExpansionAppend | src/converter.ts:84-92 | for `d < base`, with `q` and `d` not both zero, the expansion of `q * base + d` is the expansion of `q` followed by digit `d` |
| Numerals.RenderOfValue | src/converter.ts:57-96 | with distinct digits, a non-empty numeral without superfluous leading zeros renders back to itself |
| Numerals.ExpansionLeadsNonZero | src/converter.ts:84-93 | with distinct digits, the leading digit of a positive value is never the zero digit |
| Numerals.RenderCanonical | src/converter.ts:78-96 | with distinct digits, every rendering is canonical: the zero digit alone, or not led by it |
| Numerals.ExpansionLength | src/converter.ts:84-93 | the loop runs once per digit the value needs: `base^(n-1) <= v < base^n` for `n` the expansion's length |
| Numerals.DivShrinks | src/converter.ts:84-92 | dividing a positive value by a base of at least 2 strictly decreases it, so the loop ends |
| Numerals.ValueOfZeros | src/converter.ts:57-76 | a string of zero digits, the empty string included, is valid and has value 0 |
| Numerals.IndexOfPrefix | src/converter.ts:62 | a digit of `base` has the same index in two alphabets that agree on their first `base` characters |
| Numerals.FirstInvalidPrefix | src/converter.ts:49-54 | the first invalid position in `base` is the same under two such alphabets |
| Numerals.ValuePrefix | src/converter.ts:57-76 | a numeral valid in `base` under one such alphabet is valid under the other and has the same value |
| Numerals.ExpansionPrefix | src/converter.ts:84-93 | a value is written with the same digits in `base` under two such alphabets |
| Numerals.RenderPrefix | src/converter.ts:78-96 | a value renders the same in `base` under two such alphabets, zero included |
| Numerals.DecimalTextReadsBack | src/converter.ts:72 | the decimal text printed for a number is a numeral in `0-9` without superfluous leading zeros whose value is that number |
| Numerals.ToUpper | src/converter.ts:31 | upper-casing keeps the length and maps each character by ASCII case mapping |
| Trace.DigitLines | src/converter.ts:66-68 | one line per parsed digit |
| Trace.DigitLine | src/converter.ts:67 | a digit line starts with the digit and ` * `, and ends with the decimal text of the product |
| Trace.SummaryLine | src/converter.ts:72 | the summary line is `Decimal value: ` followed by the decimal text of the value |
| Trace.ParseTrace | src/converter.ts:66-73 | parsing adds one line per digit and then the summary line of the numeral's value |
| Trace.DivisionLine | src/converter.ts:89 | a division line starts with the decimal text of the value being divided, then ` % `, and ends with the digit character in parentheses |
| Trace.DivisionLines | src/converter.ts:88-90 | one line per division, as many as the expansion has digits |
| Trace.DigitLinesPrefix | src/converter.ts:62-68 | the per-digit lines are the same under two alphabets that agree on their first `base` characters |
| Trace.DivisionLinesPrefix | src/converter.ts:85-90 | the division lines are the same under two alphabets that agree on their first `base` characters |
| ConverterProperties.BaseErrors | src/converter.ts:19-20 | a conversion fails with the range error exactly when either base lies outside 2 to the alphabet's length, whatever the input; that error names that length |
| ConverterProperties.DigitErrors | src/converter.ts:22-25 | with both bases in range, a conversion fails exactly when the magnitude holds a non-digit of `fromBase`; the error names the first one and the base |
| ConverterProperties.SignPreserved | src/converter.ts:22-23 | a signed input gives a signed output, zero included; when `-` is not a digit of `toBase`, the output is signed only when the input is |
| ConverterProperties.NegatedConversion | src/converter.ts:22-31 | for a string `m` that does not itself start with `-`, converting `-m` gives the same success or error as `m`, with `-` before the output and the same trace |
| ConverterProperties.UppercaseOnlyRenders | src/converter.ts:31 | the upper-case flag changes neither acceptance, error, sign, trace nor length; only the magnitude, which becomes its ASCII upper case |
| ConverterProperties.TraceShape | src/converter.ts:27-38 | the trace is present exactly when asked; it has one line per magnitude character, then the decimal value, then one line per digit of the value in `toBase` |
| ConverterProperties.ConvertRendered | src/converter.ts:16-40 | with distinct digits and `-` not a digit, a rendered numeral fed back in its own base is accepted and renders the same value in the target base, without upper case |
| ConverterProperties.ConvertBack | src/converter.ts:16-40 | with distinct digits in both bases, `-` not a digit of the target base and without upper case, converting the output back gives the input's sign and the canonical numeral of its value; that is the input itself when its magnitude is non-empty and has no superfluous leading zeros |
| ConverterProperties.ZerosConvertToZero | src/converter.ts:79 | when upper case is not asked for and the zero digit is not `-`, any run of zero digits, the empty input included, converts to the single zero digit |
| ConverterProperties.ConversionAgrees | src/converter.ts:16-96 | two alphabets that admit both bases and agree on their first `fromBase` and `toBase` characters give the same result, or the same error, for every input and flag |
| ConverterScenarios.DefaultExpansionStep | src/converter.ts:84-92 | one division step with the default alphabet appends the digit whose code the default alphabet gives |
| ConverterScenarios.DefaultConversion | src/converter.ts:16-40 | with the default alphabet and `v > 0`, an input that is the expansion of `v` converts to the expansion of `v` in the target base, signed like the input |
| ConverterScenarios.TenExpansions | src/__tests__/converter.test.ts:23-33 | 10 is `10` in base 10 and `1010` in base 2 |
| ConverterScenarios.TwoFiftyFiveExpansions | src/__tests__/converter.test.ts:35-38 | 255 is `255` in base 10 and `ff` in base 16 |
| ConverterScenarios.DecimalToBinary | src/__tests__/converter.test.ts:23-28 | `10` from base 10 to base 2 gives `1010` |
| ConverterScenarios.BinaryToDecimal | src/__tests__/converter.test.ts:30-33 | `1010` from base 2 to base 10 gives `10` |
| ConverterScenarios.DecimalToHex | src/__tests__/converter.test.ts:64-67 | `255` from base 10 to base 16, lower case, gives `ff` |
| ConverterScenarios.DecimalToUppercaseHex | src/__tests__/converter.test.ts:59-62 | `255` from base 10 to base 16, upper case, gives `FF` |
| ConverterScenarios.HexToDecimal | src/__tests__/converter.test.ts:52-55 | `ff` from base 16 to base 10 gives `255`: the unsigned half of that test, which `NegativeHexToDecimal` builds on |
| ConverterScenarios.ZeroToBinary | src/__tests__/converter.test.ts:40-43 | `0` from base 10 to base 2 gives `0` |
| ConverterScenarios.NegativeDecimalToBinary | src/__tests__/converter.test.ts:47-50 | `-10` from base 10 to base 2 gives `-1010` |
| ConverterScenarios.NegativeHexToDecimal | src/__tests__/converter.test.ts:52-55 | `-ff` from base 16 to base 10 gives `-255` |
| ConverterScenarios.StepsOnRequest | src/__tests__/converter.test.ts:71-80 | the trace of `10` from base 10 to base 2 is present and non-empty when asked, and absent otherwise |
| ConverterScenarios.LargeDecimalExpansion | src/__tests__/converter.test.ts:84-87 | 9007199254740991 is written `9007199254740991` in base 10 |
| ConverterScenarios.LargeHexExpansion | src/__tests__/converter.test.ts:84-87 | 9007199254740991 is written `1fffffffffffff` in base 16 |
| ConverterScenarios.LargeDecimalToHex | src/__tests__/converter.test.ts:84-87 | `9007199254740991` from base 10 to base 16 gives `1fffffffffffff`, with unbounded integers |
| ConverterScenarios.HundredExpansions | src/__tests__/converter.test.ts:118-121 | 100 is `100` in base 10 and `1C` in base 62 |
| ConverterScenarios.DecimalToBase62 | src/__tests__/converter.test.ts:118-121 | `100` from base 10 to base 62 gives `1C` |
| ConverterScenarios.ShortAlphabetRefused | src/__tests__/converter.test.ts:11-19 | the one-character alphabet `0` is refused with the alphabet error and its message; no custom alphabet selects the default |
| ConverterScenarios.BasesOutOfRange | src/__tests__/converter.test.ts:99-105 | base 1 and base 63 are refused with the range error for 62, whose message is `Base must be between 2 and 62` |
| ConverterScenarios.NotABinaryDigit | src/__tests__/converter.test.ts:107-110 | `2` in base 2 is refused with the message `Invalid digit '2' for base 2` |
| ConverterScenarios.NotAHexDigit | src/__tests__/converter.test.ts:112-114 | `g` in base 16 is refused with the digit error for `g` and 16 |
| ConverterScenarios.BinaryAlphabetAgrees | src/__tests__/converter.test.ts:91-95 | a converter with the alphabet `01` converts from base 2 to base 2 exactly as the default converter does, for every input and flag |
| ConverterScenarios.BinaryAlphabetRefusesDecimal | src/converter.ts:42-46 | with the alphabet `01`, base 10 is out of range: `10` from base 10 to base 2 fails with the range error for 2 |

## Left out

- The command-line front end and the interactive loop (src/index.ts, src/repl.ts) are not part of
  this model. They are flag parsing, console and file I/O around `convert`.
- The `log` import from `@onamfc/developer-log` is not part of this model; `BaseConverter` never
  calls it.
- The `customDigits` field of the options record (src/types.ts:4) is never read by `convert`, so
  `ConversionOptions` omits it.
- Bases are modelled as integers; a `NaN` base is not modelled. The source takes a JavaScript
  `number`, and its callers pass `parseInt` of user text (src/index.ts:29-30, src/repl.ts:59,65),
  which is `NaN` for a non-numeric flag. `validateBase` (src/converter.ts:43) lets `NaN` through,
  since both comparisons are false. With a `NaN` `fromBase`, the valid digits
  (src/converter.ts:49) are empty. Every non-empty magnitude then fails with the digit error
  "Invalid digit 'x' for base NaN", and an empty one (input `""` or `"-"`) gives the zero digit.
  With a `NaN` `toBase`, a zero value gives the zero digit and a positive one makes `BigInt`
  throw a `RangeError`, which is not a `ConversionError`. Fractional bases cannot come from these
  callers and are not modelled either.
- A thrown `ConversionError` is modelled as a `Failure` carrying the error kind; `Message` gives
  its text. Exception classes and stack behaviour are not modelled.
- Trace.DigitLine, Trace.DigitLines: the product in each per-digit trace line is the exact integer. The source
  computes it with floating-point `Math.pow` and prints a JavaScript number, which differs for
  large products (rounding, exponent notation).
- Numerals.ToUpper: upper-casing is ASCII case mapping only. The source's `toUpperCase` applies
  full Unicode case mapping, which can also change the length of a string.
- Converter.ChooseAlphabet, Converter.BaseConverter.ValidateBase: lengths count characters. The
  source's `this.digits.length` (src/converter.ts:11, 43) counts UTF-16 code units. So an alphabet
  of one character outside the Basic Multilingual Plane is accepted by the source (length 2) but
  refused by the model, and such alphabets admit larger bases in the source. More generally,
  strings are sequences of characters throughout. The source walks the input by code points in
  `validateInput` but indexes it by code units in `toDecimal` and `this.digits[digit]`; the model
  does not distinguish the two.
- ConverterProperties.SignPreserved: the "signed only when the input is" direction is proved only
  when `-` is not a digit of `toBase`. A custom alphabet holding `-` can render an unsigned input
  as a string that starts with `-`, so the unconditional claim does not hold.
- ConverterScenarios: the scenario lemmas state the output (or the error) of each test call. The
  other result fields follow for every call from `Converter.Conversion`.
- The unit test at src/__tests__/converter.test.ts:91-95 expects `1010` from the alphabet `01`
  with `fromBase` 10. The code throws there, because 10 exceeds the alphabet's length. The model
  follows the code; `ConverterScenarios.BinaryAlphabetRefusesDecimal` states its behaviour, and
  `ConverterScenarios.BinaryAlphabetAgrees` states what that converter does do: base-2 conversions
  exactly like the default converter's.
