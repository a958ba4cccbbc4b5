/** Decimal rendering and parsing of numbers, and JavaScript's `String.prototype.trim`. */
module Text {

  predicate IsDigit(c: char)
  {
    '0' <= c <= '9'
  }

  predicate AllDigits(s: string)
  {
    forall i :: 0 <= i < |s| ==> IsDigit(s[i])
  }

  function DigitChar(d: nat): (c: char)
    requires d < 10
    ensures IsDigit(c)
  {
    ['0', '1', '2', '3', '4', '5', '6', '7', '8', '9'][d]
  }

  function DigitValue(c: char): (d: nat)
    requires IsDigit(c)
    ensures d < 10
  {
    (c as int - '0' as int) as nat
  }

  function Pow10(n: nat): (p: nat)
    ensures p >= 1
  {
    if n == 0 then 1 else 10 * Pow10(n - 1)
  }

  lemma Pow10Values()
    ensures Pow10(2) == 100 && Pow10(3) == 1000 && Pow10(4) == 10000
  {
    assert Pow10(1) == 10;
  }

  /** The number a string of decimal digits denotes. */
  function DecimalValue(s: string): nat
    requires AllDigits(s)
  {
    if s == [] then 0 else DecimalValue(s[..|s| - 1]) * 10 + DigitValue(s[|s| - 1])
  }

  /** `n` written with exactly `width` digits, zero-padded on the left, as the
      `YYYY`, `MM` and `DD` tokens of a date format render a year, month and day. */
  function PadDecimal(n: nat, width: nat): (s: string)
    requires n < Pow10(width)
    ensures |s| == width
    ensures AllDigits(s)
    ensures DecimalValue(s) == n
  {
    if width == 0 then ""
    else
      var s := PadDecimal(n / 10, width - 1) + [DigitChar(n % 10)];
      assert s[..|s| - 1] == PadDecimal(n / 10, width - 1);
      s
  }

  /** `n` written in decimal without leading zeros, as a template literal renders a number. */
  function Decimal(n: nat): (s: string)
    ensures 1 <= |s|
    ensures AllDigits(s)
    ensures DecimalValue(s) == n
    ensures s[0] == '0' ==> n == 0
  {
    if n < 10 then [DigitChar(n)]
    else
      var s := Decimal(n / 10) + [DigitChar(n % 10)];
      assert s[..|s| - 1] == Decimal(n / 10);
      s
  }

  /** A number in [10^(k-1), 10^k) takes k digits. */
  lemma {:induction false} DecimalLength(n: nat, k: nat)
    requires 1 <= k
    requires Pow10(k - 1) <= n < Pow10(k)
    ensures |Decimal(n)| == k
  {
    if k > 1 {
      DecimalLength(n / 10, k - 1);
    }
  }

  /** A signed integer as a template literal renders it. */
  function IntToString(i: int): (s: string)
    ensures 1 <= |s|
    ensures i < 0 <==> s[0] == '-'
  {
    if i < 0 then "-" + Decimal(-i) else Decimal(i)
  }

  /** The characters `trim` removes: ECMAScript WhiteSpace and LineTerminator. */
  predicate IsJsWhitespace(c: char)
  {
    || c == '\t' || c == '\n' || c == '\r' || c == ' '
    || c == '\U{000B}' || c == '\U{000C}' || c == '\U{00A0}' || c == '\U{1680}'
    || ('\U{2000}' <= c <= '\U{200A}')
    || c == '\U{2028}' || c == '\U{2029}' || c == '\U{202F}' || c == '\U{205F}'
    || c == '\U{3000}' || c == '\U{FEFF}'
  }

  /** The index of the first character of `s` at or after `i` that is not whitespace. */
  function SkipLeading(s: string, i: nat): (k: nat)
    requires i <= |s|
    ensures i <= k <= |s|
    ensures forall j :: i <= j < k ==> IsJsWhitespace(s[j])
    ensures k < |s| ==> !IsJsWhitespace(s[k])
    decreases |s| - i
  {
    if i == |s| || !IsJsWhitespace(s[i]) then i else SkipLeading(s, i + 1)
  }

  /** The end of `s[..j]` once trailing whitespace at or after `lo` is dropped. */
  function SkipTrailing(s: string, lo: nat, j: nat): (k: nat)
    requires lo <= j <= |s|
    ensures lo <= k <= j
    ensures forall m :: k <= m < j ==> IsJsWhitespace(s[m])
    ensures lo < k ==> !IsJsWhitespace(s[k - 1])
    decreases j
  {
    if j == lo || !IsJsWhitespace(s[j - 1]) then j else SkipTrailing(s, lo, j - 1)
  }

  /** `s.trim()`: the infix of `s` left once leading and trailing whitespace is removed. */
  function Trim(s: string): (t: string)
    ensures exists i, j ::
              && 0 <= i <= j <= |s| && t == s[i..j]
              && (forall m :: 0 <= m < i ==> IsJsWhitespace(s[m]))
              && (forall m :: j <= m < |s| ==> IsJsWhitespace(s[m]))
    ensures t != [] ==> !IsJsWhitespace(t[0]) && !IsJsWhitespace(t[|t| - 1])
    ensures t == [] <==> forall m :: 0 <= m < |s| ==> IsJsWhitespace(s[m])
  {
    var i := SkipLeading(s, 0);
    var j := SkipTrailing(s, i, |s|);
    s[i..j]
  }

  /** A string of whitespace only. */
  predicate AllWhitespace(s: string)
  {
    forall m :: 0 <= m < |s| ==> IsJsWhitespace(s[m])
  }

  /** Trimming a non-empty text with no whitespace at its ends, padded with
      whitespace on either side, gives back the text. */
  lemma TrimPadded(l: string, a: string, r: string)
    requires AllWhitespace(l) && AllWhitespace(r)
    requires a != [] && !IsJsWhitespace(a[0]) && !IsJsWhitespace(a[|a| - 1])
    ensures Trim(l + a + r) == a
  {
    var s := l + a + r;
    var i := SkipLeading(s, 0);
    assert i == |l| by {
      assert s[|l|] == a[0];
    }
    var j := SkipTrailing(s, i, |s|);
    assert j == |l| + |a| by {
      assert s[|l| + |a| - 1] == a[|a| - 1];
    }
    assert s[i..j] == a;
  }
}
