/** Positional numerals over a digit alphabet: the value of a digit string, the digit string of a
    value, and the facts that tie the two together. These are the specifications that the
    converter's parsing and rendering loops are proved against (src/converter.ts). */
module Numerals {
  import opened Types

  /** A digit alphabet: the character at index `i` is the digit with value `i`. It needs at
      least two characters, so that base 2 is always available. */
  type Alphabet = s: string | |s| >= 2 witness "01"

  function Pow(b: nat, n: nat): (p: nat)
    ensures b >= 1 ==> p >= 1
  {
    if n == 0 then 1 else b * Pow(b, n - 1)
  }

  /** JavaScript's `String.prototype.indexOf` for a one-character needle: the first index of `c`,
      or -1 when `c` does not occur. */
  function IndexOf(digits: string, c: char): (i: int)
    ensures -1 <= i < |digits|
    ensures i == -1 <==> c !in digits
    ensures 0 <= i ==> digits[i] == c && forall j :: 0 <= j < i ==> digits[j] != c
  {
    if digits == [] then -1
    else if digits[0] == c then 0
    else
      var k := IndexOf(digits[1..], c);
      if k == -1 then -1 else k + 1
  }

  /** Every character of `s` is one of the first `base` characters of the alphabet. */
  predicate ValidDigits(digits: string, s: string, base: nat)
    requires base <= |digits|
  {
    forall i :: 0 <= i < |s| ==> s[i] in digits[..base]
  }

  /** The first `base` characters of the alphabet are pairwise different. */
  predicate DistinctPrefix(digits: string, base: nat)
    requires base <= |digits|
  {
    forall i, j :: 0 <= i < j < base ==> digits[i] != digits[j]
  }

  /** A numeral without superfluous leading zeros: either the zero digit alone, or a non-empty
      string that does not start with the zero digit. */
  predicate Canonical(digits: string, s: string)
    requires |digits| >= 1
  {
    s == [digits[0]] || (|s| > 0 && s[0] != digits[0])
  }

  /** The index of the first character of `s` that is not a digit of `base`, if any. */
  function FirstInvalid(digits: string, s: string, base: nat): (r: Option<nat>)
    requires base <= |digits|
    ensures r.None? <==> ValidDigits(digits, s, base)
    ensures r.Some? ==>
      r.value < |s| && s[r.value] !in digits[..base] &&
      forall j :: 0 <= j < r.value ==> s[j] in digits[..base]
  {
    if s == [] then None
    else if s[0] !in digits[..base] then Some(0)
    else
      match FirstInvalid(digits, s[1..], base)
      case None =>
        assert forall i :: 0 < i < |s| ==> s[i] == s[1..][i - 1];
        None
      case Some(k) => Some(k + 1)
  }

  /** A character accepted as a digit of `base` is found by `IndexOf` at an index below `base`,
      whatever duplicates the rest of the alphabet holds. */
  lemma IndexOfValid(digits: string, c: char, base: nat)
    requires base <= |digits|
    requires c in digits[..base]
    ensures 0 <= IndexOf(digits, c) < base
  {
    var k :| 0 <= k < base && digits[k] == c;
  }

  lemma IndexOfDistinct(digits: string, k: nat, base: nat)
    requires base <= |digits| && DistinctPrefix(digits, base)
    requires k < base
    ensures IndexOf(digits, digits[k]) == k
  {
  }

  lemma MulAtLeast(k: int, b: int)
    requires k >= 1 && b >= 0
    ensures k * b >= b
  {
    if k > 1 {
      MulAtLeast(k - 1, b);
      assert k * b == (k - 1) * b + b;
    }
  }

  lemma MulBound(v: nat, d: nat, b: nat, p: nat)
    requires v < p && d < b
    ensures v * b + d < b * p
  {
    MulAtLeast(p - v, b);
  }

  lemma MulMonotone(a: int, b: int, c: int)
    requires a <= b && c >= 0
    ensures a * c <= b * c
  {
    MulNonNegative(b - a, c);
  }

  lemma AppendAssociative<T>(a: seq<T>, b: seq<T>, c: seq<T>)
    ensures (a + b) + c == a + (b + c)
  {
  }

  lemma EmptyConcat<T>(s: seq<T>)
    ensures [] + s == s
  {
  }

  /** A concatenation splits back into its two parts. */
  lemma SplitConcat<T>(a: seq<T>, b: seq<T>)
    ensures (a + b)[..|a|] == a && (a + b)[|a|..] == b
  {
  }

  /** A sequence that ends with `c` still ends with `c` after something is put in front. */
  lemma SuffixOfConcat<T>(a: seq<T>, b: seq<T>, c: seq<T>)
    requires |c| <= |b| && b[|b| - |c|..] == c
    ensures (a + b)[|a + b| - |c|..] == c
  {
    assert (a + b)[|a + b| - |c|..] == b[|b| - |c|..];
  }

  /** Euclidean division of `q * b + d` by `b` gives back `q` and `d` when `d < b`. */
  lemma DivMod(q: nat, d: nat, b: nat)
    requires d < b
    ensures (q * b + d) / b == q && (q * b + d) % b == d
  {
    var n := q * b + d;
    var q', d' := n / b, n % b;
    assert n == q' * b + d';
    if q' < q {
      MulAtLeast(q - q', b);
    } else if q' > q {
      MulAtLeast(q' - q, b);
    }
  }

  lemma DivModSplit(v: nat, b: nat)
    requires b >= 1
    ensures v == (v / b) * b + v % b && v % b < b
  {
  }

  lemma DivShrinks(v: nat, b: nat)
    requires v > 0 && b >= 2
    ensures 0 <= v / b < v
  {
    var q := v / b;
    assert v == q * b + v % b;
    if q > 0 {
      MulAtLeast(b - 1, q);
      assert q * b == (b - 1) * q + q;
    }
  }

  /** The value of digit string `s` read in `base`: the sum over positions `i` of
      `IndexOf(s[i]) * base^(|s| - 1 - i)`, computed here by Horner's rule on the last digit. */
  function Value(digits: string, s: string, base: nat): (v: nat)
    requires 2 <= base <= |digits|
    requires ValidDigits(digits, s, base)
    ensures v < Pow(base, |s|)
    decreases |s|
  {
    if s == [] then 0
    else
      var prefix, last := s[..|s| - 1], s[|s| - 1];
      assert ValidDigits(digits, prefix, base) by {
        assert forall i :: 0 <= i < |prefix| ==> prefix[i] == s[i];
      }
      IndexOfValid(digits, last, base);
      var d := IndexOf(digits, last);
      MulBound(Value(digits, prefix, base), d, base, Pow(base, |prefix|));
      Value(digits, prefix, base) * base + d
  }

  /** The first `n` terms of the positional sum of `s` in `base`: the digit at position `i`
      contributes `IndexOf(s[i]) * base^(|s| - 1 - i)`. */
  function PositionalSum(digits: string, s: string, base: nat, n: nat): (r: int)
    requires 2 <= base <= |digits|
    requires ValidDigits(digits, s, base)
    requires n <= |s|
    ensures r >= 0
  {
    if n == 0 then 0
    else
      IndexOfValid(digits, s[n - 1], base);
      MulNonNegative(IndexOf(digits, s[n - 1]), Pow(base, |s| - n));
      PositionalSum(digits, s, base, n - 1) + IndexOf(digits, s[n - 1]) * Pow(base, |s| - n)
  }

  lemma MulNonNegative(a: int, b: int)
    requires a >= 0 && b >= 0
    ensures a * b >= 0
  {
  }

  /** One step of the positional sum regrouped as one step of Horner's rule: if the sum so far
      is `q` shifted by one more place than `p`, adding `d * p` gives `q * b + d` shifted by `p`. */
  lemma Horner(sum: int, sum': int, q: int, d: int, v: int, b: int, p: int)
    requires sum == q * (b * p) && sum' == sum + d * p && v == q * b + d
    ensures sum' == v * p
  {
  }

  /** Horner's rule: appending digit `c` multiplies the value by the base and adds the digit. */
  lemma ValueAppend(digits: string, s: string, c: char, base: nat)
    requires 2 <= base <= |digits|
    requires ValidDigits(digits, s, base) && c in digits[..base]
    ensures ValidDigits(digits, s + [c], base)
    ensures Value(digits, s + [c], base) == Value(digits, s, base) * base + IndexOf(digits, c)
  {
    assert (s + [c])[..|s|] == s;
  }

  /** After `n` terms the positional sum equals the value of the first `n` digits, shifted
      left by the `|s| - n` places still to come. */
  lemma {:induction false} PositionalSumOfPrefix(digits: string, s: string, base: nat, n: nat)
    requires 2 <= base <= |digits|
    requires ValidDigits(digits, s, base)
    requires n <= |s|
    ensures ValidDigits(digits, s[..n], base)
    ensures PositionalSum(digits, s, base, n) == Value(digits, s[..n], base) * Pow(base, |s| - n)
    decreases n
  {
    if n == 0 {
      assert s[..0] == [];
    } else {
      var prefix, c := s[..n - 1], s[n - 1];
      PositionalSumOfPrefix(digits, s, base, n - 1);
      assert s[..n] == prefix + [c];
      ValueAppend(digits, prefix, c, base);
      var p := Pow(base, |s| - n);
      var sum, sum' := PositionalSum(digits, s, base, n - 1), PositionalSum(digits, s, base, n);
      assert sum' == Value(digits, s[..n], base) * p by {
        assert Pow(base, |s| - (n - 1)) == base * p;
        Horner(sum, sum', Value(digits, prefix, base), IndexOf(digits, c), Value(digits, s[..n], base), base, p);
      }
    }
  }

  /** The full positional sum is the value of the numeral. */
  lemma PositionalSumIsValue(digits: string, s: string, base: nat)
    requires 2 <= base <= |digits|
    requires ValidDigits(digits, s, base)
    ensures PositionalSum(digits, s, base, |s|) == Value(digits, s, base)
  {
    PositionalSumOfPrefix(digits, s, base, |s|);
    assert s[..|s|] == s;
  }

  /** The digits of `v` in `base`, most significant first, with no leading zero digit:
      the empty string for 0. */
  function Expansion(digits: string, v: nat, base: nat): (s: string)
    requires 2 <= base <= |digits|
    ensures ValidDigits(digits, s, base)
    ensures s == [] <==> v == 0
    decreases v
  {
    if v == 0 then []
    else
      var s := Expansion(digits, v / base, base) + [digits[v % base]];
      assert forall i :: 0 <= i < |s| - 1 ==> s[i] == Expansion(digits, v / base, base)[i];
      s
  }

  /** The numeral the converter prints for `v`: the zero digit for 0, the expansion otherwise. */
  function Render(digits: string, v: nat, base: nat): (s: string)
    requires 2 <= base <= |digits|
    ensures ValidDigits(digits, s, base)
    ensures |s| >= 1
  {
    if v == 0 then [digits[0]] else Expansion(digits, v, base)
  }

  /** Reading a numeral back in the base it was written in gives the value it was written from. */
  lemma {:induction false} ValueOfExpansion(digits: string, v: nat, base: nat)
    requires 2 <= base <= |digits|
    requires DistinctPrefix(digits, base)
    ensures Value(digits, Expansion(digits, v, base), base) == v
    decreases v
  {
    if v > 0 {
      var q, d := v / base, v % base;
      DivShrinks(v, base);
      DivModSplit(v, base);
      IndexOfDistinct(digits, d, base);
      ValueOfExpansion(digits, q, base);
      ValueAppend(digits, Expansion(digits, q, base), digits[d], base);
    }
  }

  lemma ValueOfRender(digits: string, v: nat, base: nat)
    requires 2 <= base <= |digits|
    requires DistinctPrefix(digits, base)
    ensures Value(digits, Render(digits, v, base), base) == v
  {
    if v == 0 {
      assert [digits[0]][..0] == [];
    } else {
      ValueOfExpansion(digits, v, base);
    }
  }

  /** Writing out the value of a numeral without leading zeros, the empty one included, gives that numeral back. */
  lemma {:induction false} ExpansionOfValue(digits: string, s: string, base: nat)
    requires 2 <= base <= |digits|
    requires DistinctPrefix(digits, base)
    requires ValidDigits(digits, s, base)
    requires s != [] ==> s[0] != digits[0]
    ensures Expansion(digits, Value(digits, s, base), base) == s
    decreases |s|
  {
    if s != [] {
      var prefix, last := s[..|s| - 1], s[|s| - 1];
      assert ValidDigits(digits, prefix, base) by {
        assert forall i :: 0 <= i < |prefix| ==> prefix[i] == s[i];
      }
      assert s == prefix + [last];
      IndexOfValid(digits, last, base);
      ValueAppend(digits, prefix, last, base);
      var d := IndexOf(digits, last);
      var q := Value(digits, prefix, base);
      ExpansionOfValue(digits, prefix, base);
      ExpansionAppend(digits, q, d, base);
    }
  }

  /** Rendering `q * base + d` appends digit `d` to the rendering of `q`. */
  lemma ExpansionAppend(digits: string, q: nat, d: nat, base: nat)
    requires 2 <= base <= |digits|
    requires d < base && (q > 0 || d > 0)
    ensures Expansion(digits, q * base + d, base) == Expansion(digits, q, base) + [digits[d]]
  {
    DivMod(q, d, base);
    if q > 0 {
      MulAtLeast(q, base);
    }
  }

  lemma RenderOfValue(digits: string, s: string, base: nat)
    requires 2 <= base <= |digits|
    requires DistinctPrefix(digits, base)
    requires ValidDigits(digits, s, base)
    requires Canonical(digits, s)
    ensures Render(digits, Value(digits, s, base), base) == s
  {
    if s == [digits[0]] {
      assert s[..0] == [];
      assert IndexOf(digits, digits[0]) == 0;
      assert Value(digits, s, base) == 0 * base + 0;
    } else {
      ExpansionOfValue(digits, s, base);
    }
  }

  /** The leading digit of a non-zero value is never the zero digit. */
  lemma {:induction false} ExpansionLeadsNonZero(digits: string, v: nat, base: nat)
    requires 2 <= base <= |digits|
    requires DistinctPrefix(digits, base)
    requires v > 0
    ensures Expansion(digits, v, base)[0] != digits[0]
    decreases v
  {
    var q := v / base;
    DivModSplit(v, base);
    DivShrinks(v, base);
    if q > 0 {
      ExpansionLeadsNonZero(digits, q, base);
      assert Expansion(digits, v, base) == Expansion(digits, q, base) + [digits[v % base]];
    } else {
      assert v % base == v;
      assert Expansion(digits, v, base) == [] + [digits[v]];
    }
  }

  lemma RenderCanonical(digits: string, v: nat, base: nat)
    requires 2 <= base <= |digits|
    requires DistinctPrefix(digits, base)
    ensures Canonical(digits, Render(digits, v, base))
  {
    if v > 0 {
      ExpansionLeadsNonZero(digits, v, base);
    }
  }

  /** The expansion of a positive value has exactly as many digits as that value needs in `base`:
      `base^(n-1) <= v < base^n` for `n` its length. */
  lemma {:induction false} ExpansionLength(digits: string, v: nat, base: nat)
    requires 2 <= base <= |digits|
    requires v > 0
    ensures var n := |Expansion(digits, v, base)|;
      n >= 1 && Pow(base, n - 1) <= v < Pow(base, n)
    decreases v
  {
    var q := v / base;
    var n := |Expansion(digits, v, base)|;
    assert n == |Expansion(digits, q, base)| + 1;
    if q == 0 {
      DivModSplit(v, base);
      assert n == 1;
    } else {
      DivShrinks(v, base);
      ExpansionLength(digits, q, base);
      DigitAppendBounds(v, base, n - 1);
    }
  }

  /** If `v / b` needs `k` digits in base `b` (it lies in `[b^(k-1), b^k)`), then `v` needs `k + 1`. */
  lemma DigitAppendBounds(v: nat, b: nat, k: nat)
    requires b >= 2 && k >= 1
    requires Pow(b, k - 1) <= v / b < Pow(b, k)
    ensures Pow(b, k) <= v < Pow(b, k + 1)
  {
    var q, d, p := v / b, v % b, Pow(b, k - 1);
    DivModSplit(v, b);
    assert Pow(b, k) == b * p;
    assert Pow(b, k + 1) == b * Pow(b, k);
    ShiftBounds(q, d, b, p);
  }

  lemma ShiftBounds(q: nat, d: nat, b: nat, p: nat)
    requires p <= q < b * p && d < b
    ensures b * p <= q * b + d < b * (b * p)
  {
    MulBound(q, d, b, b * p);
    MulMonotone(p, q, b);
  }

  /** A string made only of the zero digit has value 0, whatever its length. */
  lemma {:induction false} ValueOfZeros(digits: string, s: string, base: nat)
    requires 2 <= base <= |digits|
    requires forall i :: 0 <= i < |s| ==> s[i] == digits[0]
    ensures ValidDigits(digits, s, base) && Value(digits, s, base) == 0
    decreases |s|
  {
    if s != [] {
      ValueOfZeros(digits, s[..|s| - 1], base);
    }
  }

  /** Two alphabets that agree on their first `base` characters: everything the converter does in
      `base` looks only at those characters. */
  predicate SamePrefix(d1: string, d2: string, base: nat)
  {
    base <= |d1| && base <= |d2| && d1[..base] == d2[..base]
  }

  lemma SamePrefixAt(d1: string, d2: string, base: nat, k: nat)
    requires SamePrefix(d1, d2, base) && k < base
    ensures d1[k] == d2[k]
  {
    assert d1[k] == d1[..base][k];
  }

  /** A digit of `base` is found at the same index in both alphabets, whatever follows the prefix. */
  lemma IndexOfPrefix(d1: string, d2: string, c: char, base: nat)
    requires SamePrefix(d1, d2, base)
    requires c in d1[..base]
    ensures IndexOf(d1, c) == IndexOf(d2, c)
  {
    IndexOfValid(d1, c, base);
    IndexOfValid(d2, c, base);
    var i, j := IndexOf(d1, c), IndexOf(d2, c);
    SamePrefixAt(d1, d2, base, i);
    SamePrefixAt(d1, d2, base, j);
  }

  /** The first invalid position of a string in `base` is the same under both alphabets. */
  lemma {:induction false} FirstInvalidPrefix(d1: string, d2: string, s: string, base: nat)
    requires SamePrefix(d1, d2, base)
    ensures FirstInvalid(d1, s, base) == FirstInvalid(d2, s, base)
    decreases |s|
  {
    if s != [] {
      FirstInvalidPrefix(d1, d2, s[1..], base);
    }
  }

  /** A numeral has the same value in `base` under both alphabets. */
  lemma {:induction false} ValuePrefix(d1: string, d2: string, s: string, base: nat)
    requires 2 <= base && SamePrefix(d1, d2, base)
    requires ValidDigits(d1, s, base)
    ensures ValidDigits(d2, s, base)
    ensures Value(d1, s, base) == Value(d2, s, base)
    decreases |s|
  {
    if s != [] {
      var prefix, last := s[..|s| - 1], s[|s| - 1];
      assert s == prefix + [last];
      assert ValidDigits(d1, prefix, base) by {
        assert forall i :: 0 <= i < |prefix| ==> prefix[i] == s[i];
      }
      ValuePrefix(d1, d2, prefix, base);
      IndexOfPrefix(d1, d2, last, base);
      ValueAppend(d1, prefix, last, base);
      ValueAppend(d2, prefix, last, base);
    }
  }

  /** A value is written with the same digits in `base` under both alphabets. */
  lemma {:induction false} ExpansionPrefix(d1: string, d2: string, v: nat, base: nat)
    requires 2 <= base && SamePrefix(d1, d2, base)
    ensures Expansion(d1, v, base) == Expansion(d2, v, base)
    decreases v
  {
    if v > 0 {
      DivShrinks(v, base);
      ExpansionPrefix(d1, d2, v / base, base);
      SamePrefixAt(d1, d2, base, v % base);
    }
  }

  lemma RenderPrefix(d1: string, d2: string, v: nat, base: nat)
    requires 2 <= base && SamePrefix(d1, d2, base)
    ensures Render(d1, v, base) == Render(d2, v, base)
  {
    SamePrefixAt(d1, d2, base, 0);
    ExpansionPrefix(d1, d2, v, base);
  }

  /** ASCII upper-casing of one character. */
  function AsciiUpper(c: char): char
  {
    if 'a' <= c <= 'z' then (c as int - 32) as char else c
  }

  /** Upper-cases a string character by character, keeping its length. */
  function ToUpper(s: string): (r: string)
    ensures |r| == |s|
    ensures forall i :: 0 <= i < |s| ==> r[i] == AsciiUpper(s[i])
  {
    if s == [] then [] else [AsciiUpper(s[0])] + ToUpper(s[1..])
  }

  const DecimalDigits: Alphabet := "0123456789"

  /** The decimal text a template literal prints for a non-negative `bigint`, or for a `number`
      that is a non-negative integer below 10^21 (larger numbers print in exponent notation). */
  function DecimalText(n: nat): string
  {
    Render(DecimalDigits, n, 10)
  }

  /** The decimal text of `n` is a canonical numeral in the digits `0-9` whose value is `n`. */
  lemma DecimalTextReadsBack(n: nat)
    ensures ValidDigits(DecimalDigits, DecimalText(n), 10) && Canonical(DecimalDigits, DecimalText(n))
    ensures Value(DecimalDigits, DecimalText(n), 10) == n
  {
    assert DistinctPrefix(DecimalDigits, 10);
    ValueOfRender(DecimalDigits, n, 10);
    RenderCanonical(DecimalDigits, n, 10);
  }
}
