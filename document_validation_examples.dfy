/** The documents named by the validator's test suite, and what the model
    says happens to each. Each check digit is found from its weighted sum,
    written out below: a remainder of 0 or 1 modulo 11 gives 0, any other
    remainder r gives 11 - r. */
module DocumentValidationExamples {
  import opened JavaLang
  import opened DocumentValidationService
  import opened DocumentValidationProperties

  /** An eleven-digit string is its own normal form and is not blank, so it
      is accepted exactly when it is a CPF number. */
  lemma DigitStringOutcome(d: string)
    requires IsElevenDigits(d)
    ensures Normalize(d) == d && !IsBlank(d)
    ensures Validate(Some(d)) == Ok <==> IsValidCpf(d)
    ensures Validate(Some(d)) != InvalidDocument
  {
    NormalizeFixedPoint(d);
    assert !IsWhitespace(d[0]);
    ValidateOutcomes(Some(d));
  }

  /** The two weighted sums of an eleven-character string, term by term. */
  lemma WeightedSumsWrittenOut(d: string)
    requires |d| == 11
    ensures WeightedSum(DigitValues(d[..9]), 10) ==
      10 * DigitValue(d[0]) + 9 * DigitValue(d[1]) + 8 * DigitValue(d[2])
      + 7 * DigitValue(d[3]) + 6 * DigitValue(d[4]) + 5 * DigitValue(d[5])
      + 4 * DigitValue(d[6]) + 3 * DigitValue(d[7]) + 2 * DigitValue(d[8])
    ensures WeightedSum(DigitValues(d[..10]), 11) ==
      11 * DigitValue(d[0]) + 10 * DigitValue(d[1]) + 9 * DigitValue(d[2])
      + 8 * DigitValue(d[3]) + 7 * DigitValue(d[4]) + 6 * DigitValue(d[5])
      + 5 * DigitValue(d[6]) + 4 * DigitValue(d[7]) + 3 * DigitValue(d[8])
      + 2 * DigitValue(d[9])
  {
    var n := DigitValues(d[..10]);
    assert n[..9] == DigitValues(d[..9]);
    assert forall i :: 0 <= i < 10 ==> n[i] == DigitValue(d[i]);
    WeightedSumOfTen(n, 10);
    WeightedSumOfTen(n, 11);
  }

  /** Removing the separator at position `k` of a document that starts with
      a digit does not change the outcome. */
  lemma DropSeparator(s: string, k: nat, t: string)
    requires 0 < k < |s| && IsDecimalDigit(s[0]) && !IsAsciiAlphanumeric(s[k])
    requires t == s[..k] + s[k + 1..]
    ensures Validate(Some(s)) == Validate(Some(t))
  {
    assert s == s[..k] + [s[k]] + s[k + 1..];
    assert (s[..k] + s[k + 1..])[0] == s[0];
    PunctuationInsensitive(s[..k], [s[k]], s[k + 1..]);
  }

  /** `s` is the eleven-character `d` written `ddd.ddd.ddd-dd`, with any
      separators in place of the dots and the dash: it has the same outcome. */
  lemma ThreeSeparators(d: string, s: string)
    requires |d| == 11 && IsDecimalDigit(d[0]) && |s| == 14
    requires forall i :: 0 <= i < 3 ==> s[i] == d[i]
    requires forall i :: 3 <= i < 6 ==> s[i + 1] == d[i]
    requires forall i :: 6 <= i < 9 ==> s[i + 2] == d[i]
    requires forall i :: 9 <= i < 11 ==> s[i + 3] == d[i]
    requires !IsAsciiAlphanumeric(s[3]) && !IsAsciiAlphanumeric(s[7]) && !IsAsciiAlphanumeric(s[11])
    ensures Validate(Some(s)) == Validate(Some(d))
  {
    var u := s[..3] + s[4..];
    var w := u[..6] + u[7..];
    DropSeparator(s, 3, u);
    DropSeparator(u, 6, w);
    assert d == w[..9] + w[10..];
    DropSeparator(w, 9, d);
  }

  /** `s` is the eleven-character `d` written `ddd.ddd.ddddd`, with any
      separators in place of the dots: it has the same outcome. */
  lemma TwoSeparators(d: string, s: string)
    requires |d| == 11 && IsDecimalDigit(d[0]) && |s| == 13
    requires forall i :: 0 <= i < 3 ==> s[i] == d[i]
    requires forall i :: 3 <= i < 6 ==> s[i + 1] == d[i]
    requires forall i :: 6 <= i < 11 ==> s[i + 2] == d[i]
    requires !IsAsciiAlphanumeric(s[3]) && !IsAsciiAlphanumeric(s[7])
    ensures Validate(Some(s)) == Validate(Some(d))
  {
    var u := s[..3] + s[4..];
    DropSeparator(s, 3, u);
    assert d == u[..6] + u[7..];
    DropSeparator(u, 6, d);
  }

  // ---------------------------------------------------------------------
  // Accepted documents

  /** `00588380903` is accepted, with and without formatting. */
  lemma AcceptsReferenceDocument()
    ensures Validate(Some("00588380903")) == Ok
    ensures Validate(Some("005.883.809-03")) == Ok
    ensures Validate(Some("005-883-809.03")) == Ok
    ensures Validate(Some("005.883.80903")) == Ok
    ensures Validate(Some("005 883 809 03")) == Ok
  {
    Accepts00588380903("00588380903");
    DotsAndDashAreIgnored();
    DashesAndDotAreIgnored();
    TwoDotsAreIgnored();
    SpacesAreIgnored();
  }

  lemma DotsAndDashAreIgnored()
    ensures Validate(Some("005.883.809-03")) == Validate(Some("00588380903"))
  {
    ThreeSeparators("00588380903", "005.883.809-03");
  }

  lemma DashesAndDotAreIgnored()
    ensures Validate(Some("005-883-809.03")) == Validate(Some("00588380903"))
  {
    ThreeSeparators("00588380903", "005-883-809.03");
  }

  lemma TwoDotsAreIgnored()
    ensures Validate(Some("005.883.80903")) == Validate(Some("00588380903"))
  {
    TwoSeparators("00588380903", "005.883.80903");
  }

  lemma SpacesAreIgnored()
    ensures Validate(Some("005 883 809 03")) == Validate(Some("00588380903"))
  {
    ThreeSeparators("00588380903", "005 883 809 03");
  }

  /** The other documents the test suite expects to be accepted; in
      `00000000191` the first weighted sum is 2, the smallest remainder that
      does not give the digit 0. */
  lemma AcceptsKnownDocuments()
    ensures Validate(Some("11144477735")) == Ok
    ensures Validate(Some("52998224725")) == Ok
    ensures Validate(Some("34608514300")) == Ok
    ensures Validate(Some("70351457100")) == Ok
    ensures Validate(Some("00000000191")) == Ok
  {
    Accepts11144477735("11144477735");
    Accepts52998224725("52998224725");
    Accepts34608514300("34608514300");
    Accepts70351457100("70351457100");
    Accepts00000000191("00000000191");
  }

  /** One lemma per document. Each receives its document as a parameter
      equal to the literal, which keeps the verifier from evaluating the
      string functions on the literal eagerly, and asserts the two weighted
      sums, leaving only their remainders modulo 11 to be computed. */
  lemma Accepts00588380903(d: string)
    requires d == "00588380903"
    ensures WeightedSum(DigitValues(d[..9]), 10) == 209
    ensures WeightedSum(DigitValues(d[..10]), 11) == 250
    ensures Validate(Some(d)) == Ok
  {
    WeightedSumsWrittenOut(d);
    assert WeightedSum(DigitValues(d[..9]), 10) == 209;
    assert WeightedSum(DigitValues(d[..10]), 11) == 250;
    assert d[2] != d[0];
    DigitStringOutcome(d);
  }

  lemma Accepts11144477735(d: string)
    requires d == "11144477735"
    ensures WeightedSum(DigitValues(d[..9]), 10) == 162
    ensures WeightedSum(DigitValues(d[..10]), 11) == 204
    ensures Validate(Some(d)) == Ok
  {
    WeightedSumsWrittenOut(d);
    assert WeightedSum(DigitValues(d[..9]), 10) == 162;
    assert WeightedSum(DigitValues(d[..10]), 11) == 204;
    assert d[3] != d[0];
    DigitStringOutcome(d);
  }

  lemma Accepts52998224725(d: string)
    requires d == "52998224725"
    ensures WeightedSum(DigitValues(d[..9]), 10) == 295
    ensures WeightedSum(DigitValues(d[..10]), 11) == 347
    ensures Validate(Some(d)) == Ok
  {
    WeightedSumsWrittenOut(d);
    assert WeightedSum(DigitValues(d[..9]), 10) == 295;
    assert WeightedSum(DigitValues(d[..10]), 11) == 347;
    assert d[1] != d[0];
    DigitStringOutcome(d);
  }

  lemma Accepts34608514300(d: string)
    requires d == "34608514300"
    ensures WeightedSum(DigitValues(d[..9]), 10) == 209
    ensures WeightedSum(DigitValues(d[..10]), 11) == 243
    ensures Validate(Some(d)) == Ok
  {
    WeightedSumsWrittenOut(d);
    assert WeightedSum(DigitValues(d[..9]), 10) == 209;
    assert WeightedSum(DigitValues(d[..10]), 11) == 243;
    assert d[1] != d[0];
    DigitStringOutcome(d);
  }

  lemma Accepts70351457100(d: string)
    requires d == "70351457100"
    ensures WeightedSum(DigitValues(d[..9]), 10) == 198
    ensures WeightedSum(DigitValues(d[..10]), 11) == 231
    ensures Validate(Some(d)) == Ok
  {
    WeightedSumsWrittenOut(d);
    assert WeightedSum(DigitValues(d[..9]), 10) == 198;
    assert WeightedSum(DigitValues(d[..10]), 11) == 231;
    assert d[1] != d[0];
    DigitStringOutcome(d);
  }

  lemma Accepts00000000191(d: string)
    requires d == "00000000191"
    ensures WeightedSum(DigitValues(d[..9]), 10) == 2
    ensures WeightedSum(DigitValues(d[..10]), 11) == 21
    ensures WeightedSum(DigitValues(d[..9]), 10) % 11 == 2
    ensures WeightedSum(DigitValues(d[..10]), 11) % 11 == 10
    ensures Validate(Some(d)) == Ok
  {
    WeightedSumsWrittenOut(d);
    assert WeightedSum(DigitValues(d[..9]), 10) == 2;
    assert WeightedSum(DigitValues(d[..10]), 11) == 21;
    assert d[8] != d[0];
    DigitStringOutcome(d);
  }

  /** The digits of `00588380903` as the `int[]` handed to
      `digitValidation`: position 9 holds the check digit of the first nine
      (weights 10 down to 2) and position 10 that of the first ten (weights
      11 down to 2), so neither call throws. */
  lemma ReferenceNumbersPassDigitValidation(numbers: seq<Int32>)
    requires numbers == [0, 0, 5, 8, 8, 3, 8, 0, 9, 0, 3]
    ensures numbers[9] == CheckDigit(numbers, 10, 9)
    ensures numbers[10] == CheckDigit(numbers, 11, 10)
  {
    CheckDigitOfDigits(numbers, 10, 9);
    CheckDigitOfDigits(numbers, 11, 10);
    WeightedSumOfTen(numbers[..10], 10);
    WeightedSumOfTen(numbers[..10], 11);
    assert numbers[..10][..9] == numbers[..9];
    assert WeightedSum(numbers[..9], 10) == 209;
    assert WeightedSum(numbers[..10], 11) == 250;
  }

  // ---------------------------------------------------------------------
  // Rejected documents

  /** `null`, the empty string and white space get `INVALID_DOCUMENT`. */
  lemma RejectsBlankDocuments()
    ensures Validate(None) == InvalidDocument
    ensures Validate(Some("")) == InvalidDocument
    ensures Validate(Some("   ")) == InvalidDocument
    ensures Validate(Some("\t")) == InvalidDocument
    ensures Validate(Some("\n")) == InvalidDocument
  {
  }

  /** Every repeated-digit string gets `INVALID_CPF`, although its check
      digits are right. */
  lemma RejectsRepeatedDigits(c: char)
    requires '0' <= c <= '9'
    ensures Validate(Some(seq(11, _ => c))) == InvalidCpf
  {
    DigitStringOutcome(seq(11, _ => c));
  }

  /** Documents with too few or too many digits get `INVALID_CPF`. */
  lemma RejectsWrongLength()
    ensures Validate(Some("123456789")) == InvalidCpf
    ensures Validate(Some("1234567890")) == InvalidCpf
    ensures Validate(Some("123456789012")) == InvalidCpf
    ensures Validate(Some("12345678901234")) == InvalidCpf
  {
    RejectsNineDigits();
    RejectsTenDigits();
    RejectsTwelveDigits();
    RejectsFourteenDigits();
  }

  lemma RejectsNineDigits()
    ensures Validate(Some("123456789")) == InvalidCpf
  {
    RejectsDigitCount("123456789");
  }

  lemma RejectsTenDigits()
    ensures Validate(Some("1234567890")) == InvalidCpf
  {
    RejectsDigitCount("1234567890");
  }

  lemma RejectsTwelveDigits()
    ensures Validate(Some("123456789012")) == InvalidCpf
  {
    RejectsDigitCount("123456789012");
  }

  lemma RejectsFourteenDigits()
    ensures Validate(Some("12345678901234")) == InvalidCpf
  {
    RejectsDigitCount("12345678901234");
  }

  /** A non-empty string of decimal digits other than eleven long gets
      `INVALID_CPF`. */
  lemma RejectsDigitCount(d: string)
    requires d != [] && |d| != 11
    requires forall i :: 0 <= i < |d| ==> IsDecimalDigit(d[i])
    ensures Validate(Some(d)) == InvalidCpf
  {
    assert !IsWhitespace(d[0]);
    NormalizeFixedPoint(d);
  }

  /** A document of separators only normalises to the empty string and gets
      `INVALID_CPF`. */
  lemma RejectsSeparatorsOnly()
    ensures Validate(Some("...---...--")) == InvalidCpf
  {
    assert !IsWhitespace("...---...--"[0]);
    NormalizeSeparators("...---...--");
  }

  /** `12345@67890` and `123#4567890`, which the test suite files under
      "letters or special characters", fail on length: normalisation drops
      the symbol and leaves ten digits. */
  lemma RejectsSymbolsByLength()
    ensures Validate(Some("12345@67890")) == InvalidCpf
    ensures Validate(Some("123#4567890")) == InvalidCpf
  {
    RejectsTenDigits();
    AtSignIsDropped();
    HashIsDropped();
  }

  lemma AtSignIsDropped()
    ensures Validate(Some("12345@67890")) == Validate(Some("1234567890"))
  {
    DropSeparator("12345@67890", 5, "1234567890");
  }

  lemma HashIsDropped()
    ensures Validate(Some("123#4567890")) == Validate(Some("1234567890"))
  {
    DropSeparator("123#4567890", 3, "1234567890");
  }

  /** Eleven characters with a letter among them get `INVALID_CPF`. */
  lemma RejectsLetters()
    ensures Validate(Some("abc12345678")) == InvalidCpf
    ensures Validate(Some("1234567890a")) == InvalidCpf
  {
    RejectsLeadingLetters();
    RejectsTrailingLetter();
  }

  lemma RejectsLeadingLetters()
    ensures Validate(Some("abc12345678")) == InvalidCpf
  {
    RejectsLetter("abc12345678", 0);
  }

  lemma RejectsTrailingLetter()
    ensures Validate(Some("1234567890a")) == InvalidCpf
  {
    RejectsLetter("1234567890a", 10);
  }

  /** An eleven-character string of ASCII letters and digits with a letter
      at position `k` gets `INVALID_CPF`. */
  lemma RejectsLetter(d: string, k: nat)
    requires |d| == 11 && forall i :: 0 <= i < 11 ==> IsAsciiAlphanumeric(d[i])
    requires k < 11 && !IsDecimalDigit(d[k])
    ensures Validate(Some(d)) == InvalidCpf
  {
    assert !IsWhitespace(d[0]);
    NormalizeFixedPoint(d);
  }

  /** The documents the test suite files under "invalid first check digit"
      all carry a correct first check digit and are rejected by the second
      one. */
  lemma FirstCheckDigitGroupFailsSecondDigit(d: string)
    requires d == "12345678900" || d == "00588380902" || d == "11144477736" || d == "52998224726"
    ensures IsElevenDigits(d)
    ensures DigitValue(d[9]) == StandardCheckDigit(DigitValues(d[..9]), 10)
    ensures DigitValue(d[10]) != StandardCheckDigit(DigitValues(d[..10]), 11)
    ensures Validate(Some(d)) == InvalidCpf
  {
    if d == "12345678900" {
      WeightedSumsWrittenOut(d);
      SecondDigitRejects(d, 210, 255);
    } else if d == "00588380902" {
      WeightedSumsWrittenOut(d);
      SecondDigitRejects(d, 209, 250);
    } else if d == "11144477736" {
      WeightedSumsWrittenOut(d);
      SecondDigitRejects(d, 162, 204);
    } else {
      WeightedSumsWrittenOut(d);
      SecondDigitRejects(d, 295, 347);
    }
  }

  /** The documents filed under "invalid second check digit" carry a correct
      first check digit and are rejected by the second one. */
  lemma SecondCheckDigitGroupFailsSecondDigit(d: string)
    requires d == "00588380904" || d == "11144477734" || d == "52998224720"
    ensures IsElevenDigits(d)
    ensures DigitValue(d[9]) == StandardCheckDigit(DigitValues(d[..9]), 10)
    ensures DigitValue(d[10]) != StandardCheckDigit(DigitValues(d[..10]), 11)
    ensures Validate(Some(d)) == InvalidCpf
  {
    if d == "00588380904" {
      WeightedSumsWrittenOut(d);
      SecondDigitRejects(d, 209, 250);
    } else if d == "11144477734" {
      WeightedSumsWrittenOut(d);
      SecondDigitRejects(d, 162, 204);
    } else {
      WeightedSumsWrittenOut(d);
      SecondDigitRejects(d, 295, 347);
    }
  }

  /** An eleven-digit document whose weighted sums are `sum1` and `sum2`,
      whose tenth digit is the check digit of `sum1` and whose eleventh is not
      that of `sum2`, passes the first check digit and gets `INVALID_CPF` from
      the second. */
  lemma SecondDigitRejects(d: string, sum1: int, sum2: int)
    requires IsElevenDigits(d)
    requires WeightedSum(DigitValues(d[..9]), 10) == sum1
    requires WeightedSum(DigitValues(d[..10]), 11) == sum2
    requires DigitValue(d[9]) == Mod11Digit(sum1) && DigitValue(d[10]) != Mod11Digit(sum2)
    ensures DigitValue(d[9]) == StandardCheckDigit(DigitValues(d[..9]), 10)
    ensures DigitValue(d[10]) != StandardCheckDigit(DigitValues(d[..10]), 11)
    ensures Validate(Some(d)) == InvalidCpf
  {
    DigitStringOutcome(d);
  }
}
