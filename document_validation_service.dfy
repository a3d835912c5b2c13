/** The CPF (Cadastro de Pessoas Físicas) validator of the user service:
    `DocumentValidationService`. Where the Java code throws a
    `UserInvalidDocumentException`, the model returns the error code of
    that exception as an `Outcome`. */
module DocumentValidationService {
  import opened JavaLang

  /** A Java reference that may be `null`. */
  datatype Option<T> = None | Some(value: T)

  /** How `documentValidation` ends: normally, or by throwing with the
      error code `INVALID_DOCUMENT` or `INVALID_CPF`. */
  datatype Outcome = Ok | InvalidDocument | InvalidCpf {
    /** The code `UserErrorMessage` gives the thrown exception. */
    function Code(): (c: string)
      requires !Ok?
      ensures c == "USER-0003" <==> InvalidDocument?
      ensures c == "USER-0004" <==> InvalidCpf?
    {
      if InvalidDocument? then "USER-0003" else "USER-0004"
    }
  }

  /** The characters the class `[a-zA-Z0-9]` matches. */
  predicate IsAsciiAlphanumeric(c: char) {
    'a' <= c <= 'z' || 'A' <= c <= 'Z' || '0' <= c <= '9'
  }

  /** The characters `\d` matches (Java's default, ASCII-only, meaning). */
  predicate IsDecimalDigit(c: char) {
    '0' <= c <= '9'
  }

  /** `document.replaceAll("[^a-zA-Z0-9]", "")`. */
  function Normalize(s: string): (r: string)
    ensures |r| <= |s|
    ensures forall i :: 0 <= i < |r| ==> IsAsciiAlphanumeric(r[i])
  {
    if s == [] then []
    else (if IsAsciiAlphanumeric(s[0]) then [s[0]] else []) + Normalize(s[1..])
  }

  /** `digits.matches("\\d{11}")`. */
  predicate IsElevenDigits(digits: string)
    ensures IsElevenDigits(digits) ==>
      forall i :: 0 <= i < |digits| ==> 0 <= DigitValue(digits[i]) <= 9
  {
    |digits| == 11 && forall i :: 0 <= i < |digits| ==> IsDecimalDigit(digits[i])
  }

  /** Every character equals the first one: the string repeats its first
      character. */
  predicate AllEqual(digits: string)
    requires digits != []
    ensures AllEqual(digits) <==> digits == seq(|digits|, _ => digits[0])
  {
    forall i :: 0 <= i < |digits| ==> digits[i] == digits[0]
  }

  /** `digits.charAt(i) - '0'`. */
  function DigitValue(c: char): Int32 {
    c as int - '0' as int
  }

  /** The `int[] numbers` the validator fills from `digits`. */
  function DigitValues(digits: string): (numbers: seq<Int32>)
    ensures |numbers| == |digits|
    ensures forall i :: 0 <= i < |digits| ==> numbers[i] == DigitValue(digits[i])
  {
    seq(|digits|, i requires 0 <= i < |digits| => DigitValue(digits[i]))
  }

  /** The exact weighted sum of `s[0] * weight + s[1] * (weight - 1) + ...`,
      one term per element. */
  function WeightedSum(s: seq<int>, weight: int): int {
    if s == [] then 0
    else WeightedSum(s[..|s| - 1], weight) + s[|s| - 1] * (weight - (|s| - 1))
  }

  /** `(remainder < 2) ? 0 : 11 - remainder` with `remainder = sum % 11`:
      for a non-negative sum, the digit that makes the sum plus the digit a
      multiple of 11, or 0 where that would take a 10; for a negative sum
      (Java's remainder is then never 2 or more) always 0. */
  function ExpectedDigitOf(sum: Int32): (d: int)
    ensures 0 <= d <= 9
    ensures sum >= 0 ==> ((sum + d) % 11 == 0 <==> sum % 11 != 1)
    ensures sum >= 0 && sum % 11 == 1 ==> d == 0
    ensures sum < 0 ==> d == 0
  {
    var remainder := Rem11(sum);
    if remainder < 2 then 0 else 11 - remainder
  }

  /** The digit `digitValidation(numbers, initialWeight, pos)` compares with
      `numbers[pos]`, computed as Java computes it: the sum of
      `numbers[i] * weight` over the first `pos` elements, with the weight
      starting at `initialWeight` and decreasing by one, in 32-bit `int`. */
  function CheckDigit(numbers: seq<Int32>, initialWeight: Int32, pos: nat): (d: int)
    requires pos <= |numbers|
    ensures 0 <= d <= 9
  {
    ExpectedDigitOf(Wrap(WeightedSum(numbers[..pos], initialWeight)))
  }

  /** What `documentVerification` does with a non-blank document. */
  function Verify(document: string): (r: Outcome)
    ensures r != InvalidDocument
    ensures r == Ok ==> IsElevenDigits(Normalize(document)) && !AllEqual(Normalize(document))
  {
    var digits := Normalize(document);
    if |digits| != 11 then InvalidCpf
    else if !IsElevenDigits(digits) then InvalidCpf
    else if AllEqual(digits) then InvalidCpf
    else
      var numbers := DigitValues(digits);
      if numbers[9] != CheckDigit(numbers, 10, 9) then InvalidCpf
      else if numbers[10] != CheckDigit(numbers, 11, 10) then InvalidCpf
      else Ok
  }

  /** What `documentValidation` does with any document, `null` included. */
  function Validate(document: Option<string>): (r: Outcome)
    ensures r == InvalidDocument <==> document.None? || IsBlank(document.value)
    ensures r == Ok ==> document.Some? && IsElevenDigits(Normalize(document.value))
  {
    if document.None? || IsBlank(document.value) then InvalidDocument
    else Verify(document.value)
  }

  /** `documentValidation(document)`. */
  method DocumentValidation(document: Option<string>) returns (outcome: Outcome)
    ensures outcome == Validate(document)
  {
    if document.None? || IsBlank(document.value) {
      return InvalidDocument;
    }
    outcome := DocumentVerification(document.value);
  }

  /** `documentVerification(document)`: normalise, check the shape, reject
      repeated digits, then check both check digits. */
  method DocumentVerification(document: string) returns (outcome: Outcome)
    ensures outcome == Verify(document)
  {
    var digits := Normalize(document);
    if |digits| != 11 {
      return InvalidCpf;
    }
    if !IsElevenDigits(digits) {
      return InvalidCpf;
    }

    var firstChar := digits[0];
    var allEqual := true;
    for i := 1 to |digits|
      invariant allEqual
      invariant forall k :: 0 <= k < i ==> digits[k] == firstChar
    {
      if digits[i] != firstChar {
        allEqual := false;
        break;
      }
    }
    if allEqual {
      return InvalidCpf;
    }

    var numbers := new Int32[11];
    for i := 0 to 11
      invariant forall k :: 0 <= k < i ==> numbers[k] == DigitValue(digits[k])
    {
      numbers[i] := digits[i] as int - '0' as int;
    }
    assert numbers[..] == DigitValues(digits);

    outcome := DigitValidation(numbers, 10, 9);
    if outcome != Ok {
      return;
    }
    outcome := DigitValidation(numbers, 11, 10);
  }

  /** `digitValidation(numbers, initialWeight, validatorPosition)`: fails
      with `INVALID_CPF` exactly when `numbers[validatorPosition]` is not
      the check digit of the elements before it. */
  method DigitValidation(numbers: array<Int32>, initialWeight: Int32, validatorPosition: Int32)
    returns (outcome: Outcome)
    requires 0 <= validatorPosition < numbers.Length
    ensures outcome == Ok || outcome == InvalidCpf
    ensures outcome == Ok <==>
      numbers[validatorPosition] == CheckDigit(numbers[..], initialWeight, validatorPosition as nat)
  {
    var sum: Int32 := 0;
    var i: Int32 := 0;
    var weight: Int32 := initialWeight;
    while i < validatorPosition
      invariant 0 <= i <= validatorPosition
      invariant weight == Wrap(initialWeight - i)
      invariant sum == Wrap(WeightedSum(numbers[..i], initialWeight))
    {
      assert numbers[..i + 1][..i] == numbers[..i];
      WrapMultiplyAdd(WeightedSum(numbers[..i], initialWeight), numbers[i], initialWeight - i);
      sum := Wrap(sum + Wrap(numbers[i] * weight));
      i := i + 1;
      WrapCongruent(weight - 1, initialWeight - i);
      weight := Wrap(weight - 1);
    }
    assert numbers[..][..validatorPosition] == numbers[..validatorPosition];
    var remainder := Rem11(sum);
    var checkDigit1 := if remainder < 2 then 0 else 11 - remainder;
    if numbers[validatorPosition] != checkDigit1 {
      return InvalidCpf;
    }
    return Ok;
  }
}
