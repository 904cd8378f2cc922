/** Text primitives the application leans on: Python's substring test `k in s`,
    `str.lower()` (ASCII letters only), `str(n)` for naturals, zero padding as in
    the format spec `{n:02d}`, and reading a run of decimal digits back. */
module Text {

  /** Python's `k in s` for strings: `k` occurs in `s` at some position. */
  predicate Contains(s: string, k: string)
    decreases |s|
  {
    |k| <= |s| && (s[..|k|] == k || Contains(s[1..], k))
  }

  function LowerChar(c: char): char {
    if 'A' <= c <= 'Z' then (c as int + 32) as char else c
  }

  /** Python's `str.lower()`, restricted to the ASCII letters. */
  function Lower(s: string): (r: string)
    ensures |r| == |s|
    ensures forall i :: 0 <= i < |s| ==> r[i] == LowerChar(s[i])
    ensures forall i :: 0 <= i < |r| ==> !('A' <= r[i] <= 'Z')
    ensures forall i :: 0 <= i < |s| && !('A' <= s[i] <= 'Z') ==> r[i] == s[i]
    ensures forall i :: 0 <= i < |s| && 'A' <= s[i] <= 'Z' ==>
              'a' <= r[i] <= 'z' && r[i] as int - 'a' as int == s[i] as int - 'A' as int
  {
    seq(|s|, i requires 0 <= i < |s| => LowerChar(s[i]))
  }

  /** Lower-casing twice is lower-casing once. */
  lemma LowerIdempotent(s: string)
    ensures Lower(Lower(s)) == Lower(s)
  {
    forall i | 0 <= i < |s|
      ensures Lower(Lower(s))[i] == Lower(s)[i]
    {
      assert Lower(Lower(s))[i] == LowerChar(LowerChar(s[i]));
    }
  }

  predicate IsDigit(c: char) {
    '0' <= c <= '9'
  }

  predicate AllDigits(s: string) {
    forall i :: 0 <= i < |s| ==> IsDigit(s[i])
  }

  function DigitChar(d: nat): (c: char)
    requires d < 10
    ensures IsDigit(c)
  {
    ('0' as int + d) as char
  }

  function DigitValue(c: char): (d: nat)
    requires IsDigit(c)
    ensures d < 10
  {
    c as int - '0' as int
  }

  /** Python's `str(n)` for a natural number: its decimal digits, no leading zero. */
  function DecimalString(n: nat): (s: string)
    ensures AllDigits(s)
    ensures |s| == 1 <==> n < 10
    ensures |s| == 2 <==> 10 <= n < 100
    ensures n < 10000 ==> |s| <= 4
    ensures |s| > 1 ==> s[0] != '0'
    decreases n
  {
    if n < 10 then [DigitChar(n)] else DecimalString(n / 10) + [DigitChar(n % 10)]
  }

  /** The number a string of decimal digits denotes (leading zeros allowed). */
  function DecimalValue(s: string): nat
    requires AllDigits(s)
    decreases |s|
  {
    if |s| == 0 then 0 else DecimalValue(s[..|s| - 1]) * 10 + DigitValue(s[|s| - 1])
  }

  /** Reading back the digits `str(n)` wrote gives `n`. */
  lemma {:induction false} DecimalRoundTrip(n: nat)
    ensures DecimalValue(DecimalString(n)) == n
    decreases n
  {
    if n >= 10 {
      DecimalRoundTrip(n / 10);
      var s := DecimalString(n);
      assert s[..|s| - 1] == DecimalString(n / 10);
    }
  }

  /** A leading zero does not change the value of a digit string. */
  lemma {:induction false} LeadingZero(s: string)
    requires AllDigits(s)
    ensures AllDigits("0" + s) && DecimalValue("0" + s) == DecimalValue(s)
    decreases |s|
  {
    if |s| > 0 {
      LeadingZero(s[..|s| - 1]);
      assert ("0" + s)[..|s|] == "0" + s[..|s| - 1];
    }
  }

  /** Left-pads a digit string with zeros up to `width`, as `%0<width>d` does. */
  function ZeroPad(s: string, width: nat): (r: string)
    requires AllDigits(s)
    ensures AllDigits(r)
    ensures |r| == if |s| < width then width else |s|
    ensures DecimalValue(r) == DecimalValue(s)
    decreases width - |s|
  {
    LeadingZero(s);
    if |s| < width then ZeroPad("0" + s, width) else s
  }

  /** Python's `f"{n:02d}"`: at least two digits, value `n`. */
  function Pad2(n: nat): (r: string)
    ensures AllDigits(r) && DecimalValue(r) == n && |r| >= 2
    ensures n < 100 <==> |r| == 2
  {
    DecimalRoundTrip(n);
    ZeroPad(DecimalString(n), 2)
  }

  /** The two characters `{n:02d}` writes for a number below 100. */
  lemma Pad2Digits(n: nat)
    requires n < 100
    ensures Pad2(n) == [DigitChar(n / 10), DigitChar(n % 10)]
  {
    if n < 10 {
      assert DecimalString(n) == [DigitChar(n)];
    } else {
      assert DecimalString(n / 10) == [DigitChar(n / 10)];
    }
  }

  /** The tens and units of a two-digit number are its digits. */
  lemma TensUnits(a: nat, b: nat)
    requires a < 10 && b < 10
    ensures (a * 10 + b) / 10 == a && (a * 10 + b) % 10 == b
  {
  }

  /** Two decimal digits are exactly what `{n:02d}` writes for the number they denote. */
  lemma Pad2OfTwoDigits(s: string)
    requires |s| == 2 && AllDigits(s)
    ensures Pad2(DecimalValue(s)) == s
  {
    var a := DigitValue(s[0]);
    var b := DigitValue(s[1]);
    assert DecimalValue(s) == a * 10 + b by {
      assert s[..1][..0] == [] && s[..1][0] == s[0];
      assert DecimalValue(s[..1]) == DecimalValue(s[..1][..0]) * 10 + a;
      assert DecimalValue(s) == DecimalValue(s[..1]) * 10 + b;
    }
    var n := a * 10 + b;
    TensUnits(a, b);
    Pad2Digits(n);
    assert DigitChar(a) == s[0] && DigitChar(b) == s[1];
  }

  /** Python's `"%04d" % n`: at least four digits, value `n`. */
  function Pad4(n: nat): (r: string)
    ensures AllDigits(r) && DecimalValue(r) == n
    ensures n < 10000 ==> |r| == 4
  {
    DecimalRoundTrip(n);
    ZeroPad(DecimalString(n), 4)
  }
}
