/** The parts of the Java platform the document validator relies on:
    32-bit `int` arithmetic with two's-complement wrap-around, the
    truncating `%` operator, and the notion of white space behind
    `String.isBlank`. */
module JavaLang {

  const TWO_32: int := 0x1_0000_0000

  /** The values of Java's `int`. */
  type Int32 = x: int | -0x8000_0000 <= x < 0x8000_0000

  /** The `int` that Java stores for an exact integer result: the unique
      value in range that is congruent to `x` modulo 2^32. */
  function Wrap(x: int): (r: Int32)
    ensures (r - x) % TWO_32 == 0
    ensures -0x8000_0000 <= x < 0x8000_0000 ==> r == x
  {
    var m := x % TWO_32;
    if m < 0x8000_0000 then m else m - TWO_32
  }

  /** Two integers congruent modulo 2^32 wrap to the same `int`. */
  lemma WrapCongruent(x: int, y: int)
    requires (x - y) % TWO_32 == 0
    ensures Wrap(x) == Wrap(y)
  {
    assert x % TWO_32 == y % TWO_32 by {
      var q := (x - y) / TWO_32;
      assert x == y + q * TWO_32;
    }
  }

  /** The multiple of 2^32 that wrapping adds to `x`. */
  function WrapOffset(x: int): (k: int)
    ensures Wrap(x) == x + k * TWO_32
  {
    (Wrap(x) - x) / TWO_32
  }

  /** Wrapping ignores multiples of 2^32. */
  lemma WrapShift(x: int, k: int)
    ensures Wrap(x + k * TWO_32) == Wrap(x)
  {
    WrapCongruent(x + k * TWO_32, x);
  }

  /** The arithmetic behind `WrapMultiplyAdd`, with the three wrapped values
      given by their offsets. */
  lemma MultiplyAddOffsets(s: int, a: int, w: int, ks: int, kw: int, kp: int)
    ensures (s + ks * TWO_32) + (a * (w + kw * TWO_32) + kp * TWO_32)
         == (s + a * w) + (ks + a * kw + kp) * TWO_32
  {
    assert a * (w + kw * TWO_32) == a * w + (a * kw) * TWO_32;
  }

  /** One step of Java's `sum += a * b` with `b` an `int` that stands for the
      exact value `w`: wrapping every intermediate result gives the same `int`
      as wrapping the exact sum once. */
  lemma WrapMultiplyAdd(s: int, a: int, w: int)
    ensures Wrap(Wrap(s) + Wrap(a * Wrap(w))) == Wrap(s + a * w)
  {
    var ww := Wrap(w);
    var kw := WrapOffset(w);
    var kp := WrapOffset(a * ww);
    var ks := WrapOffset(s);
    MultiplyAddOffsets(s, a, w, ks, kw, kp);
    WrapShift(s + a * w, ks + a * kw + kp);
  }

  /** Java's `a % 11`: the remainder of a division truncated toward zero,
      so it is zero or has the sign of `a`. */
  function Rem11(a: int): (r: int)
    ensures (a - r) % 11 == 0
    ensures -11 < r < 11
    ensures r != 0 ==> (r < 0 <==> a < 0)
    ensures a >= 0 ==> r == a % 11
  {
    if a >= 0 then a % 11 else -((-a) % 11)
  }

  /** `Character.isWhitespace`: the Unicode space, line and paragraph
      separators other than the no-break spaces U+00A0, U+2007 and U+202F,
      and the control characters U+0009 to U+000D and U+001C to U+001F. */
  predicate IsWhitespace(c: char)
    ensures IsWhitespace(c) ==> !('0' <= c <= '9' || 'a' <= c <= 'z' || 'A' <= c <= 'Z')
  {
    ('\t' <= c <= '\r') || ('\U{1C}' <= c <= ' ')
    || c == '\U{1680}'
    || ('\U{2000}' <= c <= '\U{2006}') || ('\U{2008}' <= c <= '\U{200A}')
    || c == '\U{2028}' || c == '\U{2029}' || c == '\U{205F}' || c == '\U{3000}'
  }

  /** `String.isBlank`: empty, or white space only. */
  predicate IsBlank(s: string)
    ensures s == [] ==> IsBlank(s)
    ensures IsBlank(s) ==> forall i :: 0 <= i < |s| ==> !('0' <= s[i] <= '9' || 'a' <= s[i] <= 'z' || 'A' <= s[i] <= 'Z')
  {
    forall i :: 0 <= i < |s| ==> IsWhitespace(s[i])
  }
}
