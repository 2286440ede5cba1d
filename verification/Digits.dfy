/** Decimal notation: digits to numbers and back. */
module Digits {

  predicate AllDigits(ds: seq<int>) {
    forall k :: 0 <= k < |ds| ==> 0 <= ds[k] <= 9
  }

  function ValueOf(ds: seq<int>): int {
    if ds == [] then 0 else 10 * ValueOf(ds[..|ds| - 1]) + ds[|ds| - 1]
  }

  /** The shortest notation of a number. */
  function DigitsOf(n: nat): (ds: seq<int>)
    ensures ds != [] && AllDigits(ds)
  {
    if n < 10 then [n] else DigitsOf(n / 10) + [n % 10]
  }

  function Pow10(w: nat): (p: nat)
    ensures p > 0
  {
    if w == 0 then 1 else 10 * Pow10(w - 1)
  }

  /** The last `w` digits of a number, with leading zeros. */
  function Padded(n: nat, w: nat): (ds: seq<int>)
    ensures |ds| == w && AllDigits(ds)
  {
    if w == 0 then [] else Padded(n / 10, w - 1) + [n % 10]
  }

  lemma {:induction false} ValueOfDigits(n: nat)
    ensures ValueOf(DigitsOf(n)) == n
  {
    if n >= 10 {
      ValueOfDigits(n / 10);
      var ds := DigitsOf(n);
      assert ds[..|ds| - 1] == DigitsOf(n / 10);
    }
  }

  lemma {:induction false} ValueOfPadded(n: nat, w: nat)
    requires n < Pow10(w)
    ensures ValueOf(Padded(n, w)) == n
  {
    if w > 0 {
      assert n / 10 < Pow10(w - 1);
      ValueOfPadded(n / 10, w - 1);
      assert Padded(n, w)[..w - 1] == Padded(n / 10, w - 1);
    }
  }

  // ----- Digits as characters -----

  function DigitChar(d: int): char
    requires 0 <= d <= 9
  {
    (48 + d) as char
  }

  /** `c - 0x30`, whatever the character. */
  function Digit(c: char): int {
    c as int - 0x30
  }

  predicate IsDigit(c: char) {
    '0' <= c <= '9'
  }

  function Text(ds: seq<int>): (s: string)
    requires AllDigits(ds)
    ensures |s| == |ds|
  {
    seq(|ds|, k requires 0 <= k < |ds| => DigitChar(ds[k]))
  }

  /** Positional value of a run of characters. */
  function Number(s: string): int {
    ValueOf(seq(|s|, k requires 0 <= k < |s| => Digit(s[k])))
  }

  lemma NumberOfText(ds: seq<int>)
    requires AllDigits(ds)
    ensures Number(Text(ds)) == ValueOf(ds)
    ensures forall k :: 0 <= k < |ds| ==> IsDigit(Text(ds)[k])
  {
    assert seq(|ds|, k requires 0 <= k < |ds| => Digit(Text(ds)[k])) == ds;
  }

  /** `%d` of C. */
  function Decimal(n: int): string {
    if n < 0 then "-" + Text(DigitsOf(-n)) else Text(DigitsOf(n))
  }

  /** Length of the run of digits a text starts with. */
  function DigitRun(s: string): (n: nat)
    ensures n <= |s|
    ensures forall k :: 0 <= k < n ==> IsDigit(s[k])
    ensures n < |s| ==> !IsDigit(s[n])
  {
    if s == [] || !IsDigit(s[0]) then 0 else 1 + DigitRun(s[1..])
  }

  /** C's atoi for text without leading blanks. */
  function Atoi(s: string): int {
    if s != [] && s[0] == '-' then -Number(s[1..1 + DigitRun(s[1..])])
    else if s != [] && s[0] == '+' then Number(s[1..1 + DigitRun(s[1..])])
    else Number(s[..DigitRun(s)])
  }

  lemma {:induction false} DigitRunIs(s: string, n: nat)
    requires n <= |s| && (forall k :: 0 <= k < n ==> IsDigit(s[k])) && (n < |s| ==> !IsDigit(s[n]))
    ensures DigitRun(s) == n
  {
    if n > 0 {
      DigitRunIs(s[1..], n - 1);
    }
  }

  predicate IsInt32(n: int) {
    -0x8000_0000 <= n < 0x8000_0000
  }

  /** The integers of C and of R. */
  type int32 = n: int | IsInt32(n)

  predicate IsInt64(n: int) {
    -0x8000_0000_0000_0000 <= n < 0x8000_0000_0000_0000
  }

  /** What the server prints as an integer is read back as that integer. Beyond 32 bits atoi is undefined,
      and beyond 64 bits nothing reads it. */
  lemma AtoiOfDecimal(n: int)
    requires IsInt64(n)
    ensures Atoi(Decimal(n)) == n
  {
    hide DigitRun, DigitsOf, ValueOf, Number, Text;
    var ds := DigitsOf(if n < 0 then -n else n);
    var s := Text(ds);
    ValueOfDigits(if n < 0 then -n else n);
    NumberOfText(ds);
    DigitRunIs(s, |ds|);
    assert s[..|ds|] == s;
    if n < 0 {
      assert Decimal(n) == "-" + s;
      assert ("-" + s)[1..] == s && ("-" + s)[1..1 + |ds|] == s;
    } else {
      assert Decimal(n) == s && IsDigit(s[0]);
    }
  }
}
