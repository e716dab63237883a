/**
 * printf's "%.<precision>X" conversion of a non-negative integer: upper-case
 * hexadecimal digits, at least <precision> of them, zero-padded on the left.
 * Value is its inverse; the lemmas relate the two and fix the field widths.
 */
module Hex {

  import opened Wrappers

  predicate IsHexDigit(c: char)
  {
    '0' <= c <= '9' || 'A' <= c <= 'F'
  }

  predicate IsHexString(s: string)
  {
    forall i :: 0 <= i < |s| ==> IsHexDigit(s[i])
  }

  function DigitChar(d: nat): (c: char)
    requires d < 16
    ensures IsHexDigit(c)
  {
    if d < 10 then ('0' as int + d) as char else ('A' as int + d - 10) as char
  }

  function DigitValue(c: char): (d: nat)
    requires IsHexDigit(c)
    ensures d < 16 && DigitChar(d) == c
  {
    if c <= '9' then c as int - '0' as int else c as int - 'A' as int + 10
  }

  /** The number a string of hexadecimal digits denotes, most significant digit first. */
  function Value(s: string): nat
    requires IsHexString(s)
  {
    if s == [] then 0 else 16 * Value(s[..|s| - 1]) + DigitValue(s[|s| - 1])
  }

  function Pow16(k: nat): (p: nat)
    ensures p > 0
  {
    if k == 0 then 1 else 16 * Pow16(k - 1)
  }

  /** The shortest digit string for n: no leading zero, and empty for 0. */
  function Digits(n: nat): (s: string)
    ensures IsHexString(s)
    ensures Value(s) == n
    ensures s != [] ==> s[0] != '0'
    ensures s == [] <==> n == 0
  {
    if n == 0 then ""
    else
      var high := Digits(n / 16);
      var s := high + [DigitChar(n % 16)];
      assert s[..|s| - 1] == high;
      s
  }

  function Zeros(k: nat): (s: string)
    ensures |s| == k && forall i :: 0 <= i < k ==> s[i] == '0'
  {
    seq(k, _ => '0')
  }

  /** "%.<precision>X" of n. With precision 0 and n == 0 this is empty, as in C. */
  function Pad(n: nat, precision: nat): string
  {
    var d := Digits(n);
    (if precision > |d| then Zeros(precision - |d|) else "") + d
  }

  /** Leading zeros do not change the value of a digit string. */
  lemma {:induction false} ValueOfZeroPrefix(k: nat, s: string)
    requires IsHexString(s)
    ensures IsHexString(Zeros(k) + s) && Value(Zeros(k) + s) == Value(s)
  {
    var z := Zeros(k) + s;
    if s == [] {
      assert z == Zeros(k);
      ZerosValue(k);
    } else {
      var init := s[..|s| - 1];
      assert z[..|z| - 1] == Zeros(k) + init;
      ValueOfZeroPrefix(k, init);
    }
  }

  lemma {:induction false} ZerosValue(k: nat)
    ensures IsHexString(Zeros(k)) && Value(Zeros(k)) == 0
  {
    if k > 0 {
      assert Zeros(k)[..k - 1] == Zeros(k - 1);
      ZerosValue(k - 1);
    }
  }

  /** n needs at most w digits exactly when n < 16^w. */
  lemma {:induction false} DigitsFit(n: nat, w: nat)
    ensures |Digits(n)| <= w <==> n < Pow16(w)
  {
    if n > 0 && w > 0 {
      DigitsFit(n / 16, w - 1);
    }
  }

  /**
   * Pad is a faithful rendering: upper-case digits only, at least `precision`
   * of them, exactly `precision` when n fits, and they denote n.
   */
  lemma PadMeaning(n: nat, precision: nat)
    ensures IsHexString(Pad(n, precision))
    ensures Value(Pad(n, precision)) == n
    ensures |Pad(n, precision)| >= precision
    ensures |Pad(n, precision)| == precision <==> n < Pow16(precision)
  {
    var d := Digits(n);
    DigitsFit(n, precision);
    if precision > |d| {
      ValueOfZeroPrefix(precision - |d|, d);
    } else {
      assert Pad(n, precision) == d;
    }
  }

  /** A number too wide for the precision gets no zero: it is written with its shortest digits. */
  lemma {:induction false} PadOverflow(n: nat, precision: nat)
    ensures n >= Pow16(precision) ==> Pad(n, precision) == Digits(n)
  {
    DigitsFit(n, precision);
  }

  /** Number of leading hexadecimal digits of s. */
  function HexSpan(s: string): (k: nat)
    ensures k <= |s| && IsHexString(s[..k])
    ensures k < |s| ==> !IsHexDigit(s[k])
  {
    if s == [] || !IsHexDigit(s[0]) then 0
    else
      var k := 1 + HexSpan(s[1..]);
      assert s[..k] == [s[0]] + s[1..][..k - 1];
      k
  }

  lemma {:induction false} HexSpanOfDigits(h: string, t: string)
    requires IsHexString(h)
    requires t == [] || !IsHexDigit(t[0])
    ensures HexSpan(h + t) == |h|
  {
    if h != [] {
      assert (h + t)[1..] == h[1..] + t;
      HexSpanOfDigits(h[1..], t);
    }
  }

  /** Reads a run of hexadecimal digits from the front of s: at least one is needed. */
  function TakeHex(s: string): Option<(nat, string)>
  {
    var k := HexSpan(s);
    if k == 0 then None else Some((Value(s[..k]), s[k..]))
  }

  /** The run of digits Pad writes is read back whole, whatever follows it. */
  lemma TakeHexOfPad(n: nat, precision: nat, t: string)
    requires precision > 0
    requires t == [] || !IsHexDigit(t[0])
    ensures TakeHex(Pad(n, precision) + t) == Some((n, t))
  {
    var p := Pad(n, precision);
    PadMeaning(n, precision);
    HexSpanOfDigits(p, t);
    assert (p + t)[..|p|] == p;
    assert (p + t)[|p|..] == t;
  }
}
