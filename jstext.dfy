/**
 * The few JavaScript string built-ins the components use, over `string`:
 * Number.prototype.toString() of a small non-negative integer, String.prototype.padStart
 * with a one-character pad, and String.prototype.slice with its negative indices.
 * Dafny counts Unicode characters where JavaScript counts UTF-16 code units; the two
 * agree on the ASCII addresses and digit strings the components handle.
 */
module JsText {

  predicate IsDigit(c: char)
  {
    '0' <= c <= '9'
  }

  predicate AllDigits(s: string)
  {
    forall i :: 0 <= i < |s| ==> IsDigit(s[i])
  }

  function DigitChar(d: int): (c: char)
    requires 0 <= d < 10
    ensures IsDigit(c) && DigitValue(c) == d
  {
    ('0' as int + d) as char
  }

  function DigitValue(c: char): (r: int)
  {
    c as int - '0' as int
  }

  /** The number a string of decimal digits denotes, most significant digit first. */
  function DigitsValue(s: string): (r: nat)
    requires AllDigits(s)
  {
    if s == [] then 0 else DigitsValue(s[..|s| - 1]) * 10 + DigitValue(s[|s| - 1])
  }

  /** Number.prototype.toString() of a non-negative integer below 2^53 (the
      components format minutes and seconds, below 100): its decimal digits, no leading zero. */
  function DecimalString(n: nat): (s: string)
    ensures 1 <= |s| && AllDigits(s)
    ensures |s| == 1 <==> n < 10
    ensures |s| > 1 ==> s[0] != '0'
  {
    if n < 10 then [DigitChar(n)]
    else
      var front := DecimalString(n / 10);
      var s := front + [DigitChar(n % 10)];
      assert s[0] == front[0];
      s
  }

  /** Reading the digits of `n.toString()` back gives n. */
  lemma {:induction false} DecimalStringRoundTrip(n: nat)
    ensures DigitsValue(DecimalString(n)) == n
  {
    var s := DecimalString(n);
    if n < 10 {
      assert s[..0] == [];
    } else {
      DecimalStringRoundTrip(n / 10);
      assert s[..|s| - 1] == DecimalString(n / 10);
    }
  }

  /** n copies of the character c. */
  function Repeat(c: char, n: nat): (r: string)
    ensures |r| == n
    ensures forall i :: 0 <= i < n ==> r[i] == c
  {
    if n == 0 then [] else [c] + Repeat(c, n - 1)
  }

  /** String.prototype.padStart(target, pad) for a one-character pad. */
  function PadStart(s: string, target: int, pad: char): (r: string)
    ensures |r| == if |s| < target then target else |s|
    ensures r[|r| - |s|..] == s
    ensures forall i :: 0 <= i < |r| - |s| ==> r[i] == pad
  {
    if |s| < target then Repeat(pad, target - |s|) + s else s
  }

  /** The two-digit decimal text of n below 100: tens digit, then units digit. */
  function TwoDigits(n: nat): (r: string)
    requires n < 100
    ensures |r| == 2 && AllDigits(r)
    ensures DigitValue(r[0]) * 10 + DigitValue(r[1]) == n
  {
    [DigitChar(n / 10), DigitChar(n % 10)]
  }

  /** Below 100, `n.toString().padStart(2, '0')` is the two-digit text of n. */
  lemma TwoDigitsIsPadStart(n: nat)
    requires n < 100
    ensures PadStart(DecimalString(n), 2, '0') == TwoDigits(n)
  {
    if n < 10 {
      assert DecimalString(n) == [DigitChar(n)];
      assert PadStart(DecimalString(n), 2, '0') == ['0', DigitChar(n)];
    } else {
      assert DecimalString(n / 10) == [DigitChar(n / 10)];
      assert DecimalString(n) == [DigitChar(n / 10), DigitChar(n % 10)];
    }
  }

  /** Where a slice index of String.prototype.slice lands in a string of length len:
      a negative index counts from the end, and both kinds are clamped to [0, len]. */
  function SliceIndex(k: int, len: nat): (r: nat)
    ensures r <= len
    ensures k < 0 && -k <= len ==> r == len + k
    ensures k < 0 && len < -k ==> r == 0
    ensures 0 <= k ==> r == if k < len then k else len
  {
    if k < 0 then (if len + k < 0 then 0 else len + k) else if k < len then k else len
  }

  /** String.prototype.slice(start, end): empty when the clamped end is not past the clamped start. */
  function Slice(s: string, start: int, end: int): (r: string)
    ensures |r| == if SliceIndex(start, |s|) < SliceIndex(end, |s|)
                   then SliceIndex(end, |s|) - SliceIndex(start, |s|) else 0
    ensures forall i :: 0 <= i < |r| ==> r[i] == s[SliceIndex(start, |s|) + i]
  {
    var from, to := SliceIndex(start, |s|), SliceIndex(end, |s|);
    if from < to then s[from..to] else []
  }
}
