/** Character-level helpers: decimal digits as JavaScript's `Number.prototype.toString`
    and `String.prototype.padStart` produce them, Python's zero-padded `strftime`
    fields, and JavaScript's `<`/`>` on strings. */
module Text {

  predicate IsDigit(c: char) {
    '0' <= c <= '9'
  }

  function DigitChar(d: nat): (c: char)
    requires d < 10
    ensures IsDigit(c) && c as int - '0' as int == d
  {
    ('0' as int + d) as char
  }

  function Pow10(n: nat): (p: nat)
    ensures p >= 1
  {
    if n == 0 then 1 else 10 * Pow10(n - 1)
  }

  /** The last `width` decimal digits of `x`, with leading zeros. */
  function PadDigits(x: nat, width: nat): (s: string)
    ensures |s| == width
    ensures forall i :: 0 <= i < |s| ==> IsDigit(s[i])
  {
    if width == 0 then [] else PadDigits(x / 10, width - 1) + [DigitChar(x % 10)]
  }

  /** The number a string of decimal digits denotes. */
  function DecimalValue(s: string): nat
    requires forall i :: 0 <= i < |s| ==> IsDigit(s[i])
  {
    if s == [] then 0
    else
      assert IsDigit(s[|s| - 1]);
      DecimalValue(s[..|s| - 1]) * 10 + (s[|s| - 1] as int - '0' as int)
  }

  /** Reading back a zero-padded field gives the number that was written. */
  lemma {:induction false} DecimalValueOfPadDigits(x: nat, width: nat)
    requires x < Pow10(width)
    ensures DecimalValue(PadDigits(x, width)) == x
  {
    if width > 0 {
      var s := PadDigits(x, width);
      DecimalValueOfPadDigits(x / 10, width - 1);
      assert s[..|s| - 1] == PadDigits(x / 10, width - 1);
    }
  }

  /** `n.toString()` for a non-negative integer: its decimal digits, no leading zeros. */
  function ToDecimal(n: nat): (s: string)
    ensures |s| >= 1
  {
    if n < 10 then [DigitChar(n)] else ToDecimal(n / 10) + [DigitChar(n % 10)]
  }

  /** `s.padStart(width, [fill])`: fill on the left up to `width` characters. */
  function PadStart(s: string, width: nat, fill: char): (r: string)
    ensures |r| == if |s| >= width then |s| else width
  {
    if |s| >= width then s else seq(width - |s|, _ => fill) + s
  }

  /** For a number below 100, `n.toString().padStart(2, "0")` is its two-digit form. */
  lemma TwoDigitPadStart(n: nat)
    requires n < 100
    ensures PadStart(ToDecimal(n), 2, '0') == PadDigits(n, 2)
  {
    if n < 10 {
      assert PadDigits(n, 2) == PadDigits(0, 1) + [DigitChar(n)];
    } else {
      assert ToDecimal(n) == [DigitChar(n / 10)] + [DigitChar(n % 10)];
      assert PadDigits(n / 10, 1) == [DigitChar(n / 10)];
    }
  }

  /** JavaScript's `a < b` on strings of ASCII characters, such as the time options:
      lexicographic order on characters, a proper prefix coming first. (JavaScript
      compares UTF-16 code units, which order differently from Unicode scalar values
      above U+FFFF; no string compared here has such characters.) */
  predicate Less(a: string, b: string) {
    if b == [] then false
    else if a == [] then true
    else if a[0] != b[0] then a[0] < b[0]
    else Less(a[1..], b[1..])
  }

  lemma {:induction false} LessIrreflexive(a: string)
    ensures !Less(a, a)
  {
    if a != [] {
      LessIrreflexive(a[1..]);
    }
  }

  /** Two strings that agree before position `i` and differ at `i` are ordered by
      their characters at `i`. */
  lemma {:induction false} LessAtFirstDifference(a: string, b: string, i: nat)
    requires i < |a| && i < |b|
    requires a[..i] == b[..i] && a[i] != b[i]
    ensures Less(a, b) <==> a[i] < b[i]
  {
    if i > 0 {
      assert a[0] == a[..i][0] == b[..i][0] == b[0];
      assert a[1..][..i - 1] == a[..i][1..] == b[..i][1..] == b[1..][..i - 1];
      LessAtFirstDifference(a[1..], b[1..], i - 1);
    }
  }
}
