/** What the CPF validator promises: which documents it accepts, which code
    it rejects the others with, how normalisation behaves, and the
    documents its own test suite names. */
module DocumentValidationProperties {
  import opened JavaLang
  import opened DocumentValidationService

  // ---------------------------------------------------------------------
  // The CPF rule, stated on mathematical integers

  /** The modulo-11 check digit of `digits`, weighted from `weight` down:
      0 when the weighted sum leaves a remainder below 2, else 11 minus it. */
  function StandardCheckDigit(digits: seq<int>, weight: int): int {
    Mod11Digit(WeightedSum(digits, weight))
  }

  /** The check digit for a weighted sum. */
  function Mod11Digit(sum: int): int {
    var r := sum % 11;
    if r < 2 then 0 else 11 - r
  }

  /** A normalised document that is a CPF number: eleven decimal digits,
      not all the same, whose tenth digit is the check digit of the first
      nine (weights 10 to 2) and whose eleventh is the check digit of the
      first ten (weights 11 to 2). */
  ghost predicate IsValidCpf(d: string) {
    |d| == 11
    && (forall i :: 0 <= i < 11 ==> '0' <= d[i] <= '9')
    && (exists i :: 0 <= i < 11 && d[i] != d[0])
    && DigitValue(d[9]) == StandardCheckDigit(DigitValues(d[..9]), 10)
    && DigitValue(d[10]) == StandardCheckDigit(DigitValues(d[..10]), 11)
  }

  // ---------------------------------------------------------------------
  // Check digits

  /** A weighted sum of decimal digits with weights between 0 and 11 stays
      between 0 and 99 per digit. */
  lemma {:induction false} WeightedSumOfDigitsBounds(s: seq<int>, weight: int)
    requires forall i :: 0 <= i < |s| ==> 0 <= s[i] <= 9
    requires |s| <= weight <= 11
    ensures 0 <= WeightedSum(s, weight) <= 99 * |s|
  {
    if s != [] {
      var last := s[|s| - 1];
      WeightedSumOfDigitsBounds(s[..|s| - 1], weight);
      assert 0 <= last * (weight - (|s| - 1)) <= 99 by {
        assert 0 <= last <= 9 && 0 < weight - (|s| - 1) <= 11;
        DigitTimesWeight(last, weight - (|s| - 1));
      }
    }
  }

  lemma DigitTimesWeight(a: int, b: int)
    requires 0 <= a <= 9 && 0 <= b <= 11
    ensures 0 <= a * b <= 99
  {
    assert a * b <= 9 * b;
  }

  /** On decimal digits with the weights the validator uses, the check digit
      Java computes in 32-bit `int` is the textbook modulo-11 check digit:
      the sum never overflows and `%` never sees a negative operand. */
  lemma CheckDigitOfDigits(numbers: seq<Int32>, weight: Int32, pos: nat)
    requires pos <= |numbers|
    requires forall i :: 0 <= i < pos ==> 0 <= numbers[i] <= 9
    requires pos <= weight <= 11
    ensures CheckDigit(numbers, weight, pos) == StandardCheckDigit(numbers[..pos], weight)
  {
    WeightedSumOfDigitsBounds(numbers[..pos], weight);
  }

  /** The two check digits are determined by the digits before them, so two
      CPF numbers that agree on their first nine digits are the same. */
  lemma CheckDigitsDetermineDocument(d1: string, d2: string)
    requires IsValidCpf(d1) && IsValidCpf(d2)
    requires d1[..9] == d2[..9]
    ensures d1 == d2
  {
    assert d1[9] == d2[9] by {
      assert DigitValue(d1[9]) == DigitValue(d2[9]);
    }
    assert d1[..10] == d1[..9] + [d1[9]];
    assert d2[..10] == d2[..9] + [d2[9]];
    assert d1[10] == d2[10] by {
      assert DigitValue(d1[10]) == DigitValue(d2[10]);
    }
    assert d1 == d1[..10] + [d1[10]];
    assert d2 == d2[..10] + [d2[10]];
  }

  /** Extending a prefix by one element adds one weighted term. */
  lemma WeightedSumStep(s: seq<int>, k: nat, weight: int)
    requires k < |s|
    ensures WeightedSum(s[..k + 1], weight) == WeightedSum(s[..k], weight) + s[k] * (weight - k)
  {
    assert s[..k + 1][..k] == s[..k];
  }

  /** The weighted sums of the first nine and of all ten elements of `s`,
      written out term by term. */
  lemma WeightedSumOfTen(s: seq<int>, weight: int)
    requires |s| == 10
    ensures WeightedSum(s[..9], weight) == s[0] * weight + s[1] * (weight - 1)
      + s[2] * (weight - 2) + s[3] * (weight - 3) + s[4] * (weight - 4)
      + s[5] * (weight - 5) + s[6] * (weight - 6) + s[7] * (weight - 7)
      + s[8] * (weight - 8)
    ensures WeightedSum(s, weight) == WeightedSum(s[..9], weight) + s[9] * (weight - 9)
  {
    assert s[..0] == [];
    WeightedSumStep(s, 0, weight);
    WeightedSumStep(s, 1, weight);
    WeightedSumStep(s, 2, weight);
    WeightedSumStep(s, 3, weight);
    WeightedSumStep(s, 4, weight);
    WeightedSumStep(s, 5, weight);
    WeightedSumStep(s, 6, weight);
    WeightedSumStep(s, 7, weight);
    WeightedSumStep(s, 8, weight);
    WeightedSumStep(s, 9, weight);
    assert s[..10] == s;
  }

  /** The sum of the weights `weight, weight - 1, ...` of `n` positions. */
  function WeightTotal(n: nat, weight: int): int {
    if n == 0 then 0 else WeightTotal(n - 1, weight) + (weight - (n - 1))
  }

  /** A weighted sum of `n` copies of `v` is `v` times the sum of the weights. */
  lemma {:induction false} WeightedSumOfRepeated(n: nat, v: int, weight: int)
    ensures WeightedSum(seq(n, _ => v), weight) == v * WeightTotal(n, weight)
  {
    if n > 0 {
      assert seq(n, _ => v)[..n - 1] == seq(n - 1, _ => v);
      WeightedSumOfRepeated(n - 1, v, weight);
      assert v * WeightTotal(n, weight)
        == v * WeightTotal(n - 1, weight) + v * (weight - (n - 1));
    }
  }

  /** Every repeated-digit string `00000000000` ... `99999999999` carries
      correct check digits: the modulo-11 scheme alone would accept all ten,
      so the explicit all-equal check is what rejects them. */
  lemma RepeatedDigitsPassCheckDigits(c: char)
    requires '0' <= c <= '9'
    ensures var d := seq(11, _ => c);
      DigitValue(d[9]) == StandardCheckDigit(DigitValues(d[..9]), 10)
      && DigitValue(d[10]) == StandardCheckDigit(DigitValues(d[..10]), 11)
  {
    var d := seq(11, _ => c);
    var v := DigitValue(c);
    assert DigitValues(d[..9]) == seq(9, _ => v);
    assert DigitValues(d[..10]) == seq(10, _ => v);
    WeightedSumOfRepeated(9, v, 10);
    WeightedSumOfRepeated(10, v, 11);
    assert WeightTotal(9, 10) == 54;
    assert WeightTotal(10, 11) == 65;
    if v > 0 {
      assert 54 * v == 11 * (5 * v - 1) + (11 - v);
      assert 65 * v == 11 * (6 * v - 1) + (11 - v);
    }
  }

  // ---------------------------------------------------------------------
  // Normalisation

  /** Normalising a concatenation normalises each part. */
  lemma {:induction false} NormalizeConcat(a: string, b: string)
    ensures Normalize(a + b) == Normalize(a) + Normalize(b)
  {
    if a == [] {
      assert a + b == b;
    } else {
      assert (a + b)[1..] == a[1..] + b;
      NormalizeConcat(a[1..], b);
    }
  }

  /** Appending a character appends it to the normal form exactly when it
      is an ASCII letter or digit: together with `NormalizeConcat`, every
      other character is removed and the rest keep their order. */
  lemma NormalizeAppend(s: string, c: char)
    ensures Normalize(s + [c]) == Normalize(s) + (if IsAsciiAlphanumeric(c) then [c] else [])
  {
    NormalizeConcat(s, [c]);
    assert [c][1..] == [];
  }

  /** A string of ASCII letters and digits normalises to itself, and only
      such a string does. */
  lemma {:induction false} NormalizeFixedPoint(s: string)
    ensures Normalize(s) == s <==> forall i :: 0 <= i < |s| ==> IsAsciiAlphanumeric(s[i])
  {
    if s != [] && forall i :: 0 <= i < |s| ==> IsAsciiAlphanumeric(s[i]) {
      NormalizeFixedPoint(s[1..]);
      assert s == [s[0]] + s[1..];
    }
  }

  /** Normalising twice is normalising once. */
  lemma NormalizeIdempotent(s: string)
    ensures Normalize(Normalize(s)) == Normalize(s)
  {
    NormalizeFixedPoint(Normalize(s));
  }

  /** A string with no ASCII letter or digit normalises to the empty string. */
  lemma {:induction false} NormalizeSeparators(p: string)
    requires forall i :: 0 <= i < |p| ==> !IsAsciiAlphanumeric(p[i])
    ensures Normalize(p) == []
  {
    if p != [] {
      NormalizeSeparators(p[1..]);
    }
  }

  /** White space is never kept: a blank document normalises to the empty
      string, so the blank check changes only the code of the rejection. */
  lemma BlankNormalizesToEmpty(s: string)
    requires IsBlank(s)
    ensures Normalize(s) == []
    ensures Verify(s) == InvalidCpf
  {
    NormalizeSeparators(s);
  }

  // ---------------------------------------------------------------------
  // Outcomes

  /** The error code `INVALID_DOCUMENT` is given exactly to a `null` or blank
      document; a document is accepted exactly when it is not blank and
      normalises to a CPF number; every other document gets `INVALID_CPF`. */
  lemma ValidateOutcomes(document: Option<string>)
    ensures Validate(document) == InvalidDocument <==> document.None? || IsBlank(document.value)
    ensures Validate(document) == Ok <==>
      document.Some? && !IsBlank(document.value) && IsValidCpf(Normalize(document.value))
    ensures Validate(document) == InvalidCpf <==>
      document.Some? && !IsBlank(document.value) && !IsValidCpf(Normalize(document.value))
  {
    if document.Some? && !IsBlank(document.value) {
      VerifyAcceptsCpf(document.value);
    }
  }

  /** `documentVerification` succeeds exactly on documents that normalise to
      a CPF number, and otherwise fails with `INVALID_CPF`. */
  lemma VerifyAcceptsCpf(document: string)
    ensures Verify(document) == Ok <==> IsValidCpf(Normalize(document))
    ensures Verify(document) != InvalidDocument
  {
    var d := Normalize(document);
    if IsElevenDigits(d) {
      var numbers := DigitValues(d);
      assert forall i :: 0 <= i < 11 ==> 0 <= numbers[i] <= 9;
      CheckDigitOfDigits(numbers, 10, 9);
      CheckDigitOfDigits(numbers, 11, 10);
      assert numbers[..9] == DigitValues(d[..9]);
      assert numbers[..10] == DigitValues(d[..10]);
      assert AllEqual(d) <==> !exists i :: 0 <= i < 11 && d[i] != d[0];
    }
  }

  /** Inserting characters other than ASCII letters and digits (dots,
      dashes, spaces, ...) anywhere into a non-blank document does not change
      its outcome. */
  lemma PunctuationInsensitive(a: string, p: string, b: string)
    requires forall i :: 0 <= i < |p| ==> !IsAsciiAlphanumeric(p[i])
    requires !IsBlank(a + b)
    ensures Validate(Some(a + p + b)) == Validate(Some(a + b))
  {
    NormalizeConcat(a, p);
    NormalizeSeparators(p);
    assert Normalize(a + p) == Normalize(a);
    NormalizeConcat(a + p, b);
    NormalizeConcat(a, b);
    InsertKeepsNonBlank(a, p, b);
    SameNormalForm(a + p + b, a + b);
  }

  /** Two documents that are not blank and have the same normal form have
      the same outcome. */
  lemma SameNormalForm(s: string, t: string)
    requires !IsBlank(s) && !IsBlank(t)
    requires Normalize(s) == Normalize(t)
    ensures Validate(Some(s)) == Validate(Some(t))
  {
  }

  /** Inserting characters into a string that is not blank leaves it not
      blank. */
  lemma InsertKeepsNonBlank(a: string, p: string, b: string)
    requires !IsBlank(a + b)
    ensures !IsBlank(a + p + b)
  {
    var k :| 0 <= k < |a + b| && !IsWhitespace((a + b)[k]);
    if k < |a| {
      assert (a + p + b)[k] == (a + b)[k];
    } else {
      assert (a + p + b)[k + |p|] == (a + b)[k];
    }
  }
}
