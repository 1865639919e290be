/** The human-readable derivation trace ("steps") of one conversion: one line per input digit,
    a line with the decimal value, then one line per division (src/converter.ts:66-73, 88-90). */
module Trace {
  import opened Numerals

  /** `c * base^power = product`, the contribution of one input digit: the line starts with the
      digit and ends with the product in decimal. */
  function DigitLine(c: char, base: nat, power: nat, product: nat): (line: string)
    ensures |line| >= 4 && line[..4] == [c] + " * "
    ensures var k := |line| - |DecimalText(product)|;
      0 <= k && line[k..] == DecimalText(product)
  {
    var start := [c] + " * ";
    var middle := DecimalText(base) + "^" + DecimalText(power) + " = ";
    var text := DecimalText(product);
    SplitConcat(start, middle + text);
    SplitConcat(middle, text);
    SuffixOfConcat(start, middle + text, text);
    start + (middle + text)
  }

  /** The lines for the first `n` characters of `s`, the character at `i` having place value
      `base^(|s| - 1 - i)`. */
  function DigitLines(digits: string, s: string, base: nat, n: nat): (lines: seq<string>)
    requires 2 <= base <= |digits|
    requires ValidDigits(digits, s, base)
    requires n <= |s|
    ensures |lines| == n
  {
    if n == 0 then []
    else
      IndexOfValid(digits, s[n - 1], base);
      MulNonNegative(IndexOf(digits, s[n - 1]), Pow(base, |s| - n));
      var power := |s| - n;
      DigitLines(digits, s, base, n - 1) +
        [DigitLine(s[n - 1], base, power, IndexOf(digits, s[n - 1]) * Pow(base, power))]
  }

  /** `Decimal value: value`, the line that closes the parse. */
  function SummaryLine(value: nat): (line: string)
    ensures |line| > 15 && line[..15] == "Decimal value: "
    ensures line[15..] == DecimalText(value)
  {
    assert ("Decimal value: " + DecimalText(value))[15..] == DecimalText(value);
    "Decimal value: " + DecimalText(value)
  }

  /** Everything parsing `s` adds to the trace: a line per digit, then the decimal value. */
  function ParseTrace(digits: string, s: string, base: nat): (lines: seq<string>)
    requires 2 <= base <= |digits|
    requires ValidDigits(digits, s, base)
    ensures |lines| == |s| + 1 && lines[|s|] == SummaryLine(Value(digits, s, base))
  {
    DigitLines(digits, s, base, |s|) + [SummaryLine(Value(digits, s, base))]
  }

  /** `remaining % base = digit (c)`, one division step of rendering: the line starts with the
      value being divided, in decimal, and ends with the digit character in parentheses. */
  function DivisionLine(remaining: nat, base: nat, digit: nat, c: char): (line: string)
    ensures var k := |DecimalText(remaining)|;
      k + 3 <= |line| && line[..k] == DecimalText(remaining) && line[k..k + 3] == " % "
    ensures |line| >= 4 && line[|line| - 4..] == " (" + [c] + ")"
  {
    var text := DecimalText(remaining);
    var middle := DecimalText(base) + " = " + DecimalText(digit);
    var close := " (" + [c] + ")";
    var rest := " % " + (middle + close);
    SplitConcat(text, rest);
    SplitConcat(" % ", middle + close);
    assert (text + rest)[|text|..|text| + 3] == rest[..3];
    SplitConcat(middle, close);
    SuffixOfConcat(" % ", middle + close, close);
    SuffixOfConcat(text, rest, close);
    text + rest
  }

  /** Everything rendering `v` adds to the trace: one line per division, in the order the
      divisions happen, so one line per digit of the expansion of `v` (none for 0). */
  function DivisionLines(digits: string, v: nat, base: nat): (lines: seq<string>)
    requires 2 <= base <= |digits|
    ensures |lines| == |Expansion(digits, v, base)|
    decreases v
  {
    if v == 0 then []
    else [DivisionLine(v, base, v % base, digits[v % base])] + DivisionLines(digits, v / base, base)
  }

  /** The per-digit lines of a numeral in `base` are the same under two alphabets that agree on
      their first `base` characters. */
  lemma {:induction false} DigitLinesPrefix(d1: string, d2: string, s: string, base: nat, n: nat)
    requires 2 <= base && SamePrefix(d1, d2, base)
    requires ValidDigits(d1, s, base)
    requires n <= |s|
    ensures ValidDigits(d2, s, base)
    ensures DigitLines(d1, s, base, n) == DigitLines(d2, s, base, n)
    decreases n
  {
    if n > 0 {
      DigitLinesPrefix(d1, d2, s, base, n - 1);
      IndexOfPrefix(d1, d2, s[n - 1], base);
    }
  }

  /** The division lines of a value in `base` are the same under two such alphabets. */
  lemma {:induction false} DivisionLinesPrefix(d1: string, d2: string, v: nat, base: nat)
    requires 2 <= base && SamePrefix(d1, d2, base)
    ensures DivisionLines(d1, v, base) == DivisionLines(d2, v, base)
    decreases v
  {
    if v > 0 {
      DivShrinks(v, base);
      DivisionLinesPrefix(d1, d2, v / base, base);
      SamePrefixAt(d1, d2, base, v % base);
    }
  }
}
