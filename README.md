# CPF validation in the user service

This project models `DocumentValidationService`, the class of the user
service that decides whether a document is a Brazilian CPF number
(Cadastro de Pessoas Físicas), and proves properties of the model in Dafny.

The validator receives a free-form string, which may be `null`. It then:

1. throws `INVALID_DOCUMENT` (code `USER-0003`) if the string is `null` or
   blank;
2. removes every character other than an ASCII letter or digit;
3. throws `INVALID_CPF` (code `USER-0004`) if what remains is not exactly
   eleven decimal digits, or if all eleven digits are the same;
4. checks the two modulo-11 check digits, throwing `INVALID_CPF` if either
   is wrong;
5. returns normally otherwise.

The model has four modules, one per file:

- `JavaLang` (`java_lang.dfy`) covers the parts of Java that the validator
  depends on:
  - 32-bit `int` arithmetic with two's-complement wrap-around (`Wrap`);
  - the truncating `%` operator (`Rem11`);
  - `Character.isWhitespace` and `String.isBlank` (`IsWhitespace`,
    `IsBlank`).
- `DocumentValidationService` (`document_validation_service.dfy`) holds the
  validator itself:
  - the functions `Normalize`, `CheckDigit`, `Verify` and `Validate` say
    what the validator computes;
  - the methods `DocumentValidation`, `DocumentVerification` and
    `DigitValidation` follow the Java methods statement by statement. That
    includes the all-equal loop with its `break`, the `int[11]` array
    filled in a loop, and the weighted-sum loop. Each method is proved to
    compute its function.
  - A thrown `UserInvalidDocumentException` becomes the `Outcome` value
    `InvalidDocument` or `InvalidCpf`. Normal return is `Ok`.
    `Outcome.Code` gives the code `UserErrorMessage` attaches to each
    exception.
- `DocumentValidationProperties` (`document_validation_properties.dfy`)
  holds:
  - `IsValidCpf`, the CPF rule stated independently on mathematical
    integers;
  - the lemmas relating the validator to that rule;
  - the lemmas on normalisation.
- `DocumentValidationExamples` (`document_validation_examples.dfy`) holds
  the documents used by `DocumentValidationServiceTest`, with the outcome
  the model gives each of them.

`digitValidation` is `public` and accepts any `int[]`. So `CheckDigit`
computes the digit the way Java does:

- the sum and the product wrap at 32 bits;
- the weight can go negative;
- a negative sum gives a negative remainder.

`CheckDigitOfDigits` shows that none of this matters when the array holds
decimal digits and the weights are the ones `documentVerification` uses.
In that case the digit is the textbook modulo-11 check digit.

The validator reports only the two codes above. `INVALID_DOCUMENT` is given
exactly to `null` and blank input. `INVALID_CPF` does not say which rule
failed, so the model does not distinguish wrong length, non-numeric,
repeated digits or a bad first or second check digit.
`ValidateOutcomes` states what each code means in full. A blank string
normalises to the empty string, which would otherwise fail the length
check (`BlankNormalizesToEmpty`): the blank check decides only which of the
two codes is given.

## Model

| member | source | states |
|---|---|---|
| JavaLang.Wrap | src/main/java/com/atuantes/mentes/user/domain/service/DocumentValidationService.java:60-63 | the `int` Java stores for an exact result is congruent to it modulo 2^32 and equals it when it is in range |
| JavaLang.WrapCongruent | src/main/java/com/atuantes/mentes/user/domain/service/DocumentValidationService.java:61 | integers congruent modulo 2^32 are stored as the same `int` (so `weight--` repeated `i` times gives `initialWeight - i` wrapped) |
| JavaLang.WrapMultiplyAdd | src/main/java/com/atuantes/mentes/user/domain/service/DocumentValidationService.java:62 | `sum += numbers[i] * weight` performed in wrapping `int` arithmetic gives the wrapped exact sum, so wrapping once at the end is the same as wrapping every step |
| JavaLang.Rem11 | src/main/java/com/atuantes/mentes/user/domain/service/DocumentValidationService.java:64 | Java's `sum % 11`: congruent to `sum` modulo 11, strictly between -11 and 11, zero or of the sign of `sum`, and the Euclidean remainder for a non-negative `sum` |
| JavaLang.IsWhitespace | src/main/java/com/atuantes/mentes/user/domain/service/DocumentValidationService.java:12 | defines `Character.isWhitespace`, which `String.isBlank` applies to each character; its contract states that no white-space character is an ASCII letter or digit, so normalisation removes all of them |
| JavaLang.IsBlank | src/main/java/com/atuantes/mentes/user/domain/service/DocumentValidationService.java:12 | defines `String.isBlank`: the empty string is blank, and a blank string holds no ASCII letter or digit; `DocumentValidation` is proved against `Validate`, which tests it |
| DocumentValidationService.Normalize | src/main/java/com/atuantes/mentes/user/domain/service/DocumentValidationService.java:20 | `replaceAll("[^a-zA-Z0-9]", "")` never lengthens the string and keeps only ASCII letters and digits |
| DocumentValidationService.DigitValues | src/main/java/com/atuantes/mentes/user/domain/service/DocumentValidationService.java:47-50 | the `int[]` holds, at each position, the character there minus `'0'` |
| DocumentValidationService.ExpectedDigitOf | src/main/java/com/atuantes/mentes/user/domain/service/DocumentValidationService.java:64-65 | the expected digit is always 0..9; for a non-negative sum, adding it makes the sum a multiple of 11 unless the remainder is 1, where it is 0; for a negative sum it is 0 |
| DocumentValidationService.CheckDigit | src/main/java/com/atuantes/mentes/user/domain/service/DocumentValidationService.java:59-65 | the digit `digitValidation` compares with always lies in 0..9, for any array and weight |
| DocumentValidationService.Outcome.Code | src/main/java/com/atuantes/mentes/user/domain/message/UserErrorMessage.java:16-18 | a thrown exception carries `USER-0003` exactly for `INVALID_DOCUMENT` and `USER-0004` exactly for `INVALID_CPF` |
| DocumentValidationService.IsElevenDigits | src/main/java/com/atuantes/mentes/user/domain/service/DocumentValidationService.java:28 | defines `matches("\\d{11}")`: eleven characters, each an ASCII digit, so each gives a value 0..9 in the `int[]`; `DocumentVerification` is proved against `Verify`, which tests it |
| DocumentValidationService.AllEqual | src/main/java/com/atuantes/mentes/user/domain/service/DocumentValidationService.java:33-45 | defines what the all-equal loop decides: every character equals the first, which holds exactly when the string is its first character repeated; `DocumentVerification`'s loop is proved to compute it |
| DocumentValidationService.Verify | src/main/java/com/atuantes/mentes/user/domain/service/DocumentValidationService.java:19-57 | what `documentVerification` computes: it never gives `INVALID_DOCUMENT`, and it returns normally only for eleven digits that are not all equal; `VerifyAcceptsCpf` characterises it fully and `DocumentVerification` is proved to compute it |
| DocumentValidationService.Validate | src/main/java/com/atuantes/mentes/user/domain/service/DocumentValidationService.java:11-17 | what `documentValidation` computes: `INVALID_DOCUMENT` exactly for `null` or blank input, and normal return only for a document whose normal form is eleven digits; `ValidateOutcomes` characterises it fully and `DocumentValidation` is proved to compute it |
| DocumentValidationService.DocumentValidation | src/main/java/com/atuantes/mentes/user/domain/service/DocumentValidationService.java:11-17 | `documentValidation` ends with the outcome `Validate` gives: `INVALID_DOCUMENT` for `null` or blank input, otherwise the outcome of `documentVerification` |
| DocumentValidationService.DocumentVerification | src/main/java/com/atuantes/mentes/user/domain/service/DocumentValidationService.java:19-57 | `documentVerification`, with its all-equal loop and its array-filling loop, ends with the outcome `Verify` gives |
| DocumentValidationService.DigitValidation | src/main/java/com/atuantes/mentes/user/domain/service/DocumentValidationService.java:59-70 | the summing loop throws `INVALID_CPF` exactly when `numbers[validatorPosition]` differs from the 32-bit check digit of the elements before it, and returns normally otherwise |
| DocumentValidationProperties.WeightedSumOfDigitsBounds | src/main/java/com/atuantes/mentes/user/domain/service/DocumentValidationService.java:60-63 | a weighted sum of decimal digits with weights at most 11 lies in 0..99 per digit, so it never overflows an `int` |
| DocumentValidationProperties.CheckDigitOfDigits | src/main/java/com/atuantes/mentes/user/domain/service/DocumentValidationService.java:59-65 | for decimal digits and the weights 10 and 11, the digit Java computes is the textbook modulo-11 check digit |
| DocumentValidationProperties.CheckDigitsDetermineDocument | src/main/java/com/atuantes/mentes/user/domain/service/DocumentValidationService.java:52-56 | two accepted CPF numbers that agree on their first nine digits are equal: the two check digits are determined |
| DocumentValidationProperties.WeightedSumOfRepeated | src/main/java/com/atuantes/mentes/user/domain/service/DocumentValidationService.java:61-63 | the weighted sum of `n` copies of `v` is `v` times the sum of the weights |
| DocumentValidationProperties.RepeatedDigitsPassCheckDigits | src/main/java/com/atuantes/mentes/user/domain/service/DocumentValidationService.java:33-45 | every repeated-digit string carries correct check digits, so the all-equal check is what rejects it |
| DocumentValidationProperties.NormalizeConcat | src/main/java/com/atuantes/mentes/user/domain/service/DocumentValidationService.java:20 | normalising a concatenation concatenates the normalised parts: characters are kept or dropped one by one, in order |
| DocumentValidationProperties.NormalizeAppend | src/main/java/com/atuantes/mentes/user/domain/service/DocumentValidationService.java:20 | appending a character to a string appends it to the normal form exactly when it is an ASCII letter or digit, and appends nothing otherwise |
| DocumentValidationProperties.NormalizeFixedPoint | src/main/java/com/atuantes/mentes/user/domain/service/DocumentValidationService.java:20 | a string is left unchanged by normalisation if and only if it consists of ASCII letters and digits |
| DocumentValidationProperties.NormalizeIdempotent | src/main/java/com/atuantes/mentes/user/domain/service/DocumentValidationService.java:20 | normalising twice is normalising once |
| DocumentValidationProperties.NormalizeSeparators | src/main/java/com/atuantes/mentes/user/domain/service/DocumentValidationService.java:20 | a string with no ASCII letter or digit normalises to the empty string |
| DocumentValidationProperties.BlankNormalizesToEmpty | src/main/java/com/atuantes/mentes/user/domain/service/DocumentValidationService.java:12-25 | a blank string normalises to the empty string, and `documentVerification` would reject it with `INVALID_CPF` |
| DocumentValidationProperties.ValidateOutcomes | src/main/java/com/atuantes/mentes/user/domain/service/DocumentValidationService.java:11-57 | `INVALID_DOCUMENT` if and only if `null` or blank; normal return if and only if not blank and the normal form is a CPF number (eleven digits, not all equal, both check digits right); `INVALID_CPF` if and only if not blank and the normal form is not a CPF number |
| DocumentValidationProperties.VerifyAcceptsCpf | src/main/java/com/atuantes/mentes/user/domain/service/DocumentValidationService.java:19-57 | `documentVerification` returns normally if and only if the normal form is a CPF number, and never throws `INVALID_DOCUMENT` |
| DocumentValidationProperties.PunctuationInsensitive | src/main/java/com/atuantes/mentes/user/domain/service/DocumentValidationService.java:11-20 | inserting any characters other than ASCII letters and digits anywhere in a non-blank document leaves its outcome unchanged |
| DocumentValidationProperties.InsertKeepsNonBlank | src/main/java/com/atuantes/mentes/user/domain/service/DocumentValidationService.java:12 | inserting characters into a string that is not blank leaves it not blank |
| DocumentValidationProperties.SameNormalForm | src/main/java/com/atuantes/mentes/user/domain/service/DocumentValidationService.java:12-20 | two non-blank documents with the same normal form get the same outcome |
| DocumentValidationExamples.ThreeSeparators | src/test/java/com/atuantes/mentes/user/domain/service/DocumentValidationServiceTest.java:34-42 | a document written `ddd?ddd?ddd?dd`, with any separators at the `?` positions, has the outcome of its eleven digits |
| DocumentValidationExamples.TwoSeparators | src/test/java/com/atuantes/mentes/user/domain/service/DocumentValidationServiceTest.java:176-184 | a document written `ddd?ddd?ddddd` has the outcome of its eleven digits |
| DocumentValidationExamples.AcceptsReferenceDocument | src/test/java/com/atuantes/mentes/user/domain/service/DocumentValidationServiceTest.java:24-42 | `00588380903` is accepted bare, as `005.883.809-03`, `005-883-809.03`, `005.883.80903` and `005 883 809 03` |
| DocumentValidationExamples.DotsAndDashAreIgnored | src/test/java/com/atuantes/mentes/user/domain/service/DocumentValidationServiceTest.java:34-42 | `005.883.809-03` has the outcome of `00588380903` |
| DocumentValidationExamples.DashesAndDotAreIgnored | src/test/java/com/atuantes/mentes/user/domain/service/DocumentValidationServiceTest.java:166-174 | `005-883-809.03` has the outcome of `00588380903` |
| DocumentValidationExamples.TwoDotsAreIgnored | src/test/java/com/atuantes/mentes/user/domain/service/DocumentValidationServiceTest.java:176-184 | `005.883.80903` has the outcome of `00588380903` |
| DocumentValidationExamples.SpacesAreIgnored | src/test/java/com/atuantes/mentes/user/domain/service/DocumentValidationServiceTest.java:186-194 | `005 883 809 03` has the outcome of `00588380903` |
| DocumentValidationExamples.AcceptsKnownDocuments | src/test/java/com/atuantes/mentes/user/domain/service/DocumentValidationServiceTest.java:44-55 | `11144477735`, `52998224725`, `34608514300`, `70351457100` and `00000000191` are accepted |
| DocumentValidationExamples.Accepts00588380903 | src/test/java/com/atuantes/mentes/user/domain/service/DocumentValidationServiceTest.java:24-32 | `00588380903` has weighted sums 209 and 250 and is accepted |
| DocumentValidationExamples.Accepts11144477735 | src/test/java/com/atuantes/mentes/user/domain/service/DocumentValidationServiceTest.java:44-55 | `11144477735` has weighted sums 162 and 204 and is accepted |
| DocumentValidationExamples.Accepts52998224725 | src/test/java/com/atuantes/mentes/user/domain/service/DocumentValidationServiceTest.java:44-55 | `52998224725` has weighted sums 295 and 347 and is accepted |
| DocumentValidationExamples.Accepts34608514300 | src/test/java/com/atuantes/mentes/user/domain/service/DocumentValidationServiceTest.java:44-55 | `34608514300` has weighted sums 209 and 243 and is accepted |
| DocumentValidationExamples.Accepts70351457100 | src/test/java/com/atuantes/mentes/user/domain/service/DocumentValidationServiceTest.java:44-55 | `70351457100` has weighted sums 198 and 231 and is accepted |
| DocumentValidationExamples.Accepts00000000191 | src/test/java/com/atuantes/mentes/user/domain/service/DocumentValidationServiceTest.java:220-228 | `00000000191` has weighted sums 2 and 21, with remainders 2 and 10 modulo 11, and is accepted; neither check digit comes from a remainder below 2 |
| DocumentValidationExamples.ReferenceNumbersPassDigitValidation | src/test/java/com/atuantes/mentes/user/domain/service/DocumentValidationServiceTest.java:196-218 | `digitValidation` on the digits of `00588380903` returns normally for position 9 with weight 10 and for position 10 with weight 11 |
| DocumentValidationExamples.RejectsBlankDocuments | src/test/java/com/atuantes/mentes/user/domain/service/DocumentValidationServiceTest.java:57-69 | `null`, `""`, `"   "`, `"\t"` and `"\n"` get `INVALID_DOCUMENT` |
| DocumentValidationExamples.RejectsRepeatedDigits | src/test/java/com/atuantes/mentes/user/domain/service/DocumentValidationServiceTest.java:71-93 | each of `00000000000` ... `99999999999` gets `INVALID_CPF` |
| DocumentValidationExamples.RejectsWrongLength | src/test/java/com/atuantes/mentes/user/domain/service/DocumentValidationServiceTest.java:95-111 | `123456789`, `1234567890`, `123456789012` and `12345678901234` get `INVALID_CPF` |
| DocumentValidationExamples.RejectsNineDigits | src/test/java/com/atuantes/mentes/user/domain/service/DocumentValidationServiceTest.java:97 | `123456789` gets `INVALID_CPF` |
| DocumentValidationExamples.RejectsTenDigits | src/test/java/com/atuantes/mentes/user/domain/service/DocumentValidationServiceTest.java:98 | `1234567890` gets `INVALID_CPF` |
| DocumentValidationExamples.RejectsTwelveDigits | src/test/java/com/atuantes/mentes/user/domain/service/DocumentValidationServiceTest.java:99 | `123456789012` gets `INVALID_CPF` |
| DocumentValidationExamples.RejectsFourteenDigits | src/test/java/com/atuantes/mentes/user/domain/service/DocumentValidationServiceTest.java:100 | `12345678901234` gets `INVALID_CPF` |
| DocumentValidationExamples.RejectsDigitCount | src/main/java/com/atuantes/mentes/user/domain/service/DocumentValidationService.java:20-25 | a non-empty string of decimal digits whose length is not 11 gets `INVALID_CPF` |
| DocumentValidationExamples.RejectsSeparatorsOnly | src/test/java/com/atuantes/mentes/user/domain/service/DocumentValidationServiceTest.java:261-273 | `...---...--` normalises to the empty string and gets `INVALID_CPF` |
| DocumentValidationExamples.RejectsSymbolsByLength | src/test/java/com/atuantes/mentes/user/domain/service/DocumentValidationServiceTest.java:117-118 | `12345@67890` and `123#4567890` get `INVALID_CPF` |
| DocumentValidationExamples.AtSignIsDropped | src/test/java/com/atuantes/mentes/user/domain/service/DocumentValidationServiceTest.java:117 | `12345@67890` has the outcome of the ten digits `1234567890` |
| DocumentValidationExamples.HashIsDropped | src/test/java/com/atuantes/mentes/user/domain/service/DocumentValidationServiceTest.java:118 | `123#4567890` has the outcome of the ten digits `1234567890` |
| DocumentValidationExamples.RejectsLetters | src/test/java/com/atuantes/mentes/user/domain/service/DocumentValidationServiceTest.java:113-129 | `abc12345678` and `1234567890a` get `INVALID_CPF` |
| DocumentValidationExamples.RejectsLeadingLetters | src/test/java/com/atuantes/mentes/user/domain/service/DocumentValidationServiceTest.java:115 | `abc12345678` gets `INVALID_CPF` |
| DocumentValidationExamples.RejectsTrailingLetter | src/test/java/com/atuantes/mentes/user/domain/service/DocumentValidationServiceTest.java:116 | `1234567890a` gets `INVALID_CPF` |
| DocumentValidationExamples.RejectsLetter | src/main/java/com/atuantes/mentes/user/domain/service/DocumentValidationService.java:27-31 | eleven ASCII letters and digits with a letter among them pass the length check and get `INVALID_CPF` from the digits-only check |
| DocumentValidationExamples.FirstCheckDigitGroupFailsSecondDigit | src/test/java/com/atuantes/mentes/user/domain/service/DocumentValidationServiceTest.java:131-147 | each of `12345678900`, `00588380902`, `11144477736` and `52998224726` is eleven digits with a correct first check digit and a wrong second one, and gets `INVALID_CPF` |
| DocumentValidationExamples.SecondCheckDigitGroupFailsSecondDigit | src/test/java/com/atuantes/mentes/user/domain/service/DocumentValidationServiceTest.java:149-164 | each of `00588380904`, `11144477734` and `52998224720` is eleven digits with a correct first check digit and a wrong second one, and gets `INVALID_CPF` |
| DocumentValidationExamples.SecondDigitRejects | src/main/java/com/atuantes/mentes/user/domain/service/DocumentValidationService.java:52-56 | an eleven-digit document with weighted sums `sum1` and `sum2` whose tenth digit is the check digit of `sum1` and whose eleventh is not that of `sum2` passes the first check digit and gets `INVALID_CPF` from the second |

## The test suite, read against the model

- The group "invalid first check digit" (`DocumentValidationServiceTest.java`
  lines 131-147) holds `12345678900`, `00588380902`, `11144477736` and
  `52998224726`. In all four the first check digit is correct. They are
  rejected by the second check digit, like the three documents of the
  "invalid second check digit" group
  (`FirstCheckDigitGroupFailsSecondDigit`). The model gives all four
  `INVALID_CPF`, which is what the test expects, since both check digits
  give the same code. None of the test's documents has a wrong first check
  digit.
- `12345@67890` and `123#4567890` are filed under "letters or special
  characters" (lines 113-129). Normalisation drops the symbol. Each is then
  rejected for having ten digits, not for the symbol
  (`RejectsSymbolsByLength`).
- `00000000191` is named "remainder less than 2" (lines 220-228). Its first
  weighted sum is 2, so the remainder is 2 and the first check digit is 9.
  The second weighted sum is 21, with remainder 10, which gives the digit 1.
  Neither check digit comes from a remainder below 2 (`Accepts00000000191`).
- The "multiple times" test (lines 247-259) expects the same result from
  repeated calls. The validator keeps no state, and in the model `Validate`
  is a function of the document alone, so every call gives the same outcome.

## Left out

- The exception objects and their message texts (`UserMessage`). Each
  exception is represented only by its `Outcome` and its code.
- Logging: the class carries `@Slf4j` but does not log.
- DocumentValidationService.DigitValidation: requires `0 <= validatorPosition < numbers.Length`. Java would throw `ArrayIndexOutOfBoundsException` outside that range, or `NullPointerException` for a `null` array; the model does not include these exceptions. `documentVerification` calls it only with positions 9 and 10 of an eleven-element array.
- Strings are sequences of Unicode code points. Java's UTF-16 strings can
  also hold unpaired surrogate halves, which this model cannot represent.
  They are neither white space nor ASCII letters or digits, so they would
  be removed like any other separator.
- `IsWhitespace` follows `Character.isWhitespace` of current Java
  releases. U+180E, white space only under Unicode versions before 6.3, is
  not white space here.
- The regular-expression engine is not modelled. `Normalize` stands for
  `replaceAll("[^a-zA-Z0-9]", "")` and `IsElevenDigits` for
  `matches("\\d{11}")`, with `\d` meaning ASCII digits as it does in Java by
  default.
- The model covers only the validator. The entities that call it (`User`
  and `CreateUserCommand`, whose constructors can be built only from a
  document that `Validate` accepts), the controllers, mappers,
  persistence, exception handlers and the `ValidAge` validator are not part
  of this model.
