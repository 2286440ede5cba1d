/** The positional parsers for dates, times and time stamps (src/PqColumnDataSource.cpp:73-167).
    Seconds are unsigned decimal numbers and exact; a character past the end of the text is the terminating
    NUL of C. */
module Timestamp {
  import opened Base
  import opened Digits
  import opened PqUtils

  function CharAt(s: string, i: nat): char {
    if i < |s| then s[i] else '\0'
  }

  /** The digits after a decimal point. */
  function Decimals(s: string): real {
    Number(s) as real / Pow10(|s|) as real
  }

  /** strtod on an unsigned decimal number at position `pos`: its value and the position after it. Leading
      blanks, signs, exponents and the names of special values, which strtod reads too, are not modelled. */
  function Strtod(s: string, pos: nat): (r: (real, nat))
    requires pos <= |s|
    ensures pos <= r.1 <= |s|
  {
    var e := pos + DigitRun(s[pos..]);
    var whole := Number(s[pos..e]) as real;
    if CharAt(s, e) == '.' then
      var f := e + 1 + DigitRun(s[e + 1..]);
      (whole + Decimals(s[e + 1..f]), f)
    else
      (whole, e)
  }

  // ----- What the three texts stand for -----

  function DateValue(s: string): int
    requires 10 <= |s|
  {
    DaysFromCivil(Number(s[..4]), Number(s[5..7]), Number(s[8..10]))
  }

  function TimeValue(s: string): real
    requires 6 <= |s|
  {
    (Number(s[..2]) * 3600 + Number(s[3..5]) * 60) as real + Strtod(s, 6).0
  }

  /** A time zone offset is complete: two digits for the hours and, after a colon, two for the minutes. */
  predicate OffsetShaped(s: string) {
    s != [] && s[0] in {'+', '-'} ==> 3 <= |s| && (CharAt(s, 3) == ':' ==> 6 <= |s|)
  }

  /** Seconds east of UTC. */
  function OffsetValue(s: string): int
    requires OffsetShaped(s)
  {
    if s == [] || s[0] !in {'+', '-'} then 0
    else
      var seconds := Number(s[1..3]) * 3600 + if CharAt(s, 3) == ':' then Number(s[4..6]) * 60 else 0;
      if s[0] == '+' then seconds else -seconds
  }

  lemma TwoDigits(s: string)
    requires |s| == 2
    ensures Number(s) == Digit(s[0]) * 10 + Digit(s[1])
  {
    var ds := seq(|s|, k requires 0 <= k < |s| => Digit(s[k]));
    assert ds[..1] == [Digit(s[0])];
    assert [Digit(s[0])][..0] == [];
    assert ValueOf([Digit(s[0])]) == Digit(s[0]);
  }

  lemma FourDigits(s: string)
    requires |s| == 4
    ensures Number(s) == ((Digit(s[0]) * 10 + Digit(s[1])) * 10 + Digit(s[2])) * 10 + Digit(s[3])
  {
    TwoDigits(s[..2]);
    var ds := seq(|s|, k requires 0 <= k < |s| => Digit(s[k]));
    assert ds[..3][..2] == ds[..2] == seq(2, k requires 0 <= k < 2 => Digit(s[..2][k]));
    assert ValueOf(ds[..3]) == 10 * ValueOf(ds[..3][..2]) + ds[2];
  }

  // ----- The parsers -----

  method FetchDate(val: string) returns (days: int)
    requires 10 <= |val|
    ensures days == DateValue(val)
  {
    var p := 0;
    var year := Digit(val[p]);
    year := year * 10;
    p := p + 1;
    year := year + Digit(val[p]);
    year := year * 10;
    p := p + 1;
    year := year + Digit(val[p]);
    year := year * 10;
    p := p + 1;
    year := year + Digit(val[p]);
    p := p + 1;
    p := p + 1;
    var mon := 10 * Digit(val[p]);
    p := p + 1;
    mon := mon + Digit(val[p]);
    p := p + 1;
    p := p + 1;
    var mday := Digit(val[p]) * 10;
    p := p + 1;
    mday := mday + Digit(val[p]);
    FourDigits(val[..4]);
    TwoDigits(val[5..7]);
    TwoDigits(val[8..10]);
    days := DaysFromCivil(year, mon, mday);
  }

  method FetchTime(val: string) returns (seconds: real)
    requires 6 <= |val|
    ensures seconds == TimeValue(val)
  {
    var p := 0;
    var hour := Digit(val[p]) * 10;
    p := p + 1;
    hour := hour + Digit(val[p]);
    p := p + 1;
    p := p + 1;
    var min := Digit(val[p]) * 10;
    p := p + 1;
    min := min + Digit(val[p]);
    p := p + 1;
    p := p + 1;
    var sec := Strtod(val, p).0;
    TwoDigits(val[..2]);
    TwoDigits(val[3..5]);
    seconds := (hour * 3600 + min * 60) as real + sec;
  }

  /** Truncation toward zero, as in a cast to int. */
  function Truncated(x: real): int {
    if x >= 0.0 then x.Floor else -(-x).Floor
  }

  /** A date, any character, a time, and an offset if there is one. */
  predicate DatetimeShaped(s: string) {
    17 <= |s| && OffsetShaped(s[Strtod(s, 17).1..])
  }

  /** A time stamp is its date at midnight, plus its time, less its offset. */
  function DatetimeValue(s: string): real
    requires DatetimeShaped(s)
  {
    (86400 * DateValue(s[..10])) as real + TimeValue(s[11..]) - OffsetValue(s[Strtod(s, 17).1..]) as real
  }

  /** The three parsers agree on every text with unsigned decimal seconds, not only on what the server prints. */
  method ConvertDatetime(val: string) returns (seconds: real)
    requires DatetimeShaped(val)
    ensures seconds == DatetimeValue(val)
  {
    hide Strtod, DateValue, TimeValue, OffsetValue, DaysFromCivil;
    var p := 0;
    var year := Digit(val[p]);
    p := p + 1;
    year := year * 10;
    year := year + Digit(val[p]);
    p := p + 1;
    year := year * 10;
    year := year + Digit(val[p]);
    p := p + 1;
    year := year * 10;
    year := year + Digit(val[p]) - 1900;
    p := p + 1;

    p := p + 1;
    var mon := Digit(val[p]) * 10;
    p := p + 1;
    mon := mon + Digit(val[p]) - 1;
    p := p + 1;

    p := p + 1;
    var mday := Digit(val[p]) * 10;
    p := p + 1;
    mday := mday + Digit(val[p]);
    p := p + 1;

    p := p + 1;
    var hour := Digit(val[p]) * 10;
    p := p + 1;
    hour := hour + Digit(val[p]);
    p := p + 1;

    p := p + 1;
    var min := Digit(val[p]) * 10;
    p := p + 1;
    min := min + Digit(val[p]);
    p := p + 1;

    p := p + 1;
    var (sec, end) := Strtod(val, p);
    p := end;
    var tmSec := Truncated(sec);

    var utcOffset := 0;
    if CharAt(val, p) == '+' || CharAt(val, p) == '-' {
      var tzHours, tzMinutes, sign := 0, 0, 0;
      sign := if val[p] == '+' then 1 else -1;
      p := p + 1;
      tzHours := Digit(val[p]) * 10;
      p := p + 1;
      tzHours := tzHours + Digit(val[p]);
      p := p + 1;
      if CharAt(val, p) == ':' {
        p := p + 1;
        tzMinutes := Digit(val[p]) * 10;
        p := p + 1;
        tzMinutes := tzMinutes + Digit(val[p]);
        p := p + 1;
      }
      utcOffset := sign * (tzHours * 3600 + tzMinutes * 60);
    }
    OffsetAt(val, end, utcOffset);
    DateAt(val, year, mon, mday);
    TimeAt(val, hour, min);
    var time := TmToTimeT(Tm(year, mon, mday, hour, min, tmSec));
    seconds := time as real + (sec - tmSec as real) - utcOffset as real;
  }

  lemma OffsetAt(val: string, end: nat, utcOffset: int)
    requires end <= |val| && OffsetShaped(val[end..])
    requires utcOffset ==
      if CharAt(val, end) in {'+', '-'} then
        (if val[end] == '+' then 1 else -1) *
        ((Digit(val[end + 1]) * 10 + Digit(val[end + 2])) * 3600 +
         (if CharAt(val, end + 3) == ':' then Digit(val[end + 4]) * 10 + Digit(val[end + 5]) else 0) * 60)
      else 0
    ensures utcOffset == OffsetValue(val[end..])
  {
    var s := val[end..];
    if s != [] && s[0] in {'+', '-'} {
      TwoDigits(s[1..3]);
      if CharAt(s, 3) == ':' {
        TwoDigits(s[4..6]);
      }
    }
  }

  lemma DateAt(val: string, year: int, mon: int, mday: int)
    requires 10 <= |val|
    requires year + 1900 == ((Digit(val[0]) * 10 + Digit(val[1])) * 10 + Digit(val[2])) * 10 + Digit(val[3])
    requires mon + 1 == Digit(val[5]) * 10 + Digit(val[6]) && mday == Digit(val[8]) * 10 + Digit(val[9])
    ensures DateValue(val[..10]) == DaysFromCivil(year + 1900, mon + 1, mday)
  {
    FourDigits(val[..10][..4]);
    TwoDigits(val[..10][5..7]);
    TwoDigits(val[..10][8..10]);
  }

  lemma TimeAt(val: string, hour: int, min: int)
    requires 17 <= |val|
    requires hour == Digit(val[11]) * 10 + Digit(val[12]) && min == Digit(val[14]) * 10 + Digit(val[15])
    ensures TimeValue(val[11..]) == (hour * 3600 + min * 60) as real + Strtod(val, 17).0
  {
    TwoDigits(val[11..][..2]);
    TwoDigits(val[11..][3..5]);
    StrtodShift(val, 11, 6);
  }

  /** strtod only looks forward. */
  lemma StrtodShift(s: string, a: nat, p: nat)
    requires a + p <= |s|
    ensures Strtod(s[a..], p).0 == Strtod(s, a + p).0
    ensures a + Strtod(s[a..], p).1 == Strtod(s, a + p).1
  {
    hide Number, Decimals, DigitRun;
    var t := s[a..];
    assert t[p..] == s[a + p..];
    var e := p + DigitRun(t[p..]);
    assert t[p..e] == s[a + p..a + e];
    if CharAt(t, e) == '.' {
      assert t[e + 1..] == s[a + e + 1..];
      var f := e + 1 + DigitRun(t[e + 1..]);
      assert t[e + 1..f] == s[a + e + 1..a + f];
    }
  }

  // ----- Printing and reading back -----

  /** Text the server prints, with a fraction of any number of digits. */
  function DateText(t: Date): (s: string)
    requires 0 <= t.y && 0 <= t.m && 0 <= t.d
    ensures |s| == 10
  {
    Text(Padded(t.y, 4)) + "-" + Text(Padded(t.m, 2)) + "-" + Text(Padded(t.d, 2))
  }

  function SecondsText(sec: nat, fraction: seq<int>): (s: string)
    requires AllDigits(fraction)
    ensures 2 <= |s|
  {
    Text(Padded(sec, 2)) + if fraction == [] then "" else "." + Text(fraction)
  }

  function TimeText(hour: nat, min: nat, sec: nat, fraction: seq<int>): (s: string)
    requires AllDigits(fraction)
    ensures 8 <= |s|
  {
    Text(Padded(hour, 2)) + ":" + Text(Padded(min, 2)) + ":" + SecondsText(sec, fraction)
  }

  datatype Offset = NoOffset | Offset(east: bool, hours: nat, minutes: Option<nat>)

  function OffsetText(o: Offset): string {
    if o.NoOffset? then ""
    else
      (if o.east then "+" else "-") + Text(Padded(o.hours, 2)) +
      if o.minutes.Some? then ":" + Text(Padded(o.minutes.value, 2)) else ""
  }

  function OffsetSeconds(o: Offset): int {
    if o.NoOffset? then 0
    else
      var seconds := o.hours * 3600 + if o.minutes.Some? then o.minutes.value * 60 else 0;
      if o.east then seconds else -seconds
  }

  function Fraction(fraction: seq<int>): real {
    ValueOf(fraction) as real / Pow10(|fraction|) as real
  }

  lemma PaddedReads(n: nat, w: nat)
    requires n < Pow10(w)
    ensures Number(Text(Padded(n, w))) == n
    ensures forall k :: 0 <= k < w ==> IsDigit(Text(Padded(n, w))[k])
  {
    ValueOfPadded(n, w);
    NumberOfText(Padded(n, w));
  }

  lemma DateReadsBack(t: Date, rest: string)
    requires 0 <= t.y < 10000 && 0 <= t.m < 100 && 0 <= t.d < 100
    ensures DateValue(DateText(t) + rest) == Days(t)
  {
    PaddedReads(t.y, 4);
    PaddedReads(t.m, 2);
    PaddedReads(t.d, 2);
    var s := DateText(t) + rest;
    assert s[..4] == Text(Padded(t.y, 4));
    assert s[5..7] == Text(Padded(t.m, 2));
    assert s[8..10] == Text(Padded(t.d, 2));
  }

  /** Reading seconds stops where the offset begins, or at the end of the text. */
  lemma SecondsReadBack(sec: nat, fraction: seq<int>, rest: string)
    requires sec < 100 && AllDigits(fraction)
    requires rest == [] || (!IsDigit(rest[0]) && rest[0] != '.')
    ensures Strtod(SecondsText(sec, fraction) + rest, 0) == (sec as real + Fraction(fraction), |SecondsText(sec, fraction)|)
  {
    hide Strtod, Number, Decimals, Fraction, Padded, Text;
    var whole := Text(Padded(sec, 2));
    PaddedReads(sec, 2);
    DecimalsOfText(fraction);
    if fraction == [] {
      assert whole + "" == whole;
      StrtodWhole(whole, rest);
    } else {
      StrtodDecimal(whole, Text(fraction), rest);
    }
  }

  predicate AllIsDigit(s: string) {
    forall k :: 0 <= k < |s| ==> IsDigit(s[k])
  }

  lemma StrtodWhole(whole: string, rest: string)
    requires AllIsDigit(whole) && (rest == [] || (!IsDigit(rest[0]) && rest[0] != '.'))
    ensures Strtod(whole + rest, 0) == (Number(whole) as real, |whole|)
  {
    hide Number, Decimals, DigitRun;
    var s := whole + rest;
    DigitRunIs(s, |whole|);
    assert s[0..] == s && s[0..|whole|] == whole;
  }

  lemma StrtodDecimal(whole: string, decimals: string, rest: string)
    requires AllIsDigit(whole) && AllIsDigit(decimals) && (rest == [] || !IsDigit(rest[0]))
    ensures Strtod(whole + ("." + decimals) + rest, 0) ==
      (Number(whole) as real + Decimals(decimals), |whole + ("." + decimals)|)
  {
    hide Number, Decimals, DigitRun;
    var s, e := whole + ("." + decimals) + rest, |whole|;
    var more := decimals + rest;
    DigitRunIs(s, e);
    DigitRunIs(more, |decimals|);
    assert s[0..] == s && s[0..e] == whole && s[e + 1..] == more;
    assert s[e + 1..e + 1 + |decimals|] == decimals;
  }

  lemma DecimalsOfText(fraction: seq<int>)
    requires AllDigits(fraction)
    ensures Decimals(Text(fraction)) == Fraction(fraction)
    ensures fraction == [] ==> Fraction(fraction) == 0.0
    ensures forall k :: 0 <= k < |fraction| ==> IsDigit(Text(fraction)[k])
  {
    NumberOfText(fraction);
  }

  lemma TimeReadsBack(hour: nat, min: nat, sec: nat, fraction: seq<int>, rest: string)
    requires hour < 100 && min < 100 && sec < 100 && AllDigits(fraction)
    requires rest == [] || (!IsDigit(rest[0]) && rest[0] != '.')
    ensures var s := TimeText(hour, min, sec, fraction) + rest;
      && TimeValue(s) == (hour * 3600 + min * 60) as real + sec as real + Fraction(fraction)
      && Strtod(s, 6).1 == |TimeText(hour, min, sec, fraction)|
  {
    hide Number, Strtod, Fraction, Padded, Text, SecondsText;
    PaddedReads(hour, 2);
    PaddedReads(min, 2);
    var s := TimeText(hour, min, sec, fraction) + rest;
    assert s[..2] == Text(Padded(hour, 2));
    assert s[3..5] == Text(Padded(min, 2));
    assert s[6..] == SecondsText(sec, fraction) + rest;
    SecondsReadBack(sec, fraction, rest);
    StrtodShift(s, 6, 0);
  }

  lemma OffsetReadsBack(o: Offset)
    requires o.Offset? ==> o.hours < 100 && (o.minutes.Some? ==> o.minutes.value < 100)
    ensures OffsetShaped(OffsetText(o)) && OffsetValue(OffsetText(o)) == OffsetSeconds(o)
    ensures OffsetText(o) == [] || (!IsDigit(OffsetText(o)[0]) && OffsetText(o)[0] != '.')
  {
    if o.Offset? {
      PaddedReads(o.hours, 2);
      var s := OffsetText(o);
      assert s[1..3] == Text(Padded(o.hours, 2));
      if o.minutes.Some? {
        PaddedReads(o.minutes.value, 2);
        assert s[4..6] == Text(Padded(o.minutes.value, 2));
      }
    }
  }

  function DatetimeText(t: Date, hour: nat, min: nat, sec: nat, fraction: seq<int>, o: Offset): string
    requires 0 <= t.y && 0 <= t.m && 0 <= t.d && AllDigits(fraction)
  {
    DateText(t) + " " + TimeText(hour, min, sec, fraction) + OffsetText(o)
  }

  /** Reading inverts printing, for every date of the years 0 to 9999, any time of day, any fraction and offset:
      the result is the POSIX time of the whole seconds, plus the fraction, less the offset. */
  lemma DatetimeReadsBack(t: Date, hour: nat, min: nat, sec: nat, fraction: seq<int>, o: Offset)
    requires IsDate(t) && 0 <= t.y < 10000 && hour < 100 && min < 100 && sec < 100 && AllDigits(fraction)
    requires o.Offset? ==> o.hours < 100 && (o.minutes.Some? ==> o.minutes.value < 100)
    ensures var s := DatetimeText(t, hour, min, sec, fraction, o);
      && DatetimeShaped(s)
      && DatetimeValue(s) == TmToTimeT(Tm(t.y - 1900, t.m - 1, t.d, hour, min, sec)) as real
           + Fraction(fraction) - OffsetSeconds(o) as real
  {
    hide Strtod, DateValue, TimeValue, OffsetValue, OffsetText, Fraction, TimeText, DateText, DaysFromCivil;
    var s := DatetimeText(t, hour, min, sec, fraction, o);
    var time, offset := TimeText(hour, min, sec, fraction), OffsetText(o);
    OffsetReadsBack(o);
    assert s[11..] == time + offset;
    TimeReadsBack(hour, min, sec, fraction, offset);
    StrtodShift(s, 11, 6);
    assert s[11 + |time|..] == offset;
    assert s[..10] == DateText(t) + [];
    DateReadsBack(t, []);
  }
}
