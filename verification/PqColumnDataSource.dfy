/** What the columns read from the current result (src/PqColumnDataSource.cpp). */
module PqColumnDataSource {
  import opened Base
  import opened DataTypes
  import opened Digits
  import opened Libpq
  import Blob
  import CopyEncode
  import Timestamp

  /** The special values by name; any other text is left to libc. */
  function RealOf(text: string): Double {
    if text == "-Infinity" then Infinite(true)
    else if text == "Infinity" then Infinite(false)
    else if text == "NaN" then NotANumber
    else Parsed(text)
  }

  /** Dates and times are exact; text too short for a positional parser is not what the server sends. */
  function DateOf(text: string): Double {
    if 10 <= |text| then Num(Timestamp.DateValue(text) as real) else Parsed(text)
  }

  function TimeOf(text: string): Double {
    if 6 <= |text| then Num(Timestamp.TimeValue(text)) else Parsed(text)
  }

  function DatetimeOf(text: string): Double {
    if Timestamp.DatetimeShaped(text) then Num(Timestamp.DatetimeValue(text)) else Parsed(text)
  }

  /** PQunescapeBytea, for the hex format. */
  function BlobOf(text: string): seq<byte> {
    var raw := Blob.ByteaIn(CopyEncode.Ascii(text));
    if raw == None then [] else raw.value
  }

  /** What each fetch function makes of the text of a value. */
  function ReadingsOf(text: string): Readings {
    Readings(
      asBool := if text == "t" then 1 else 0,
      asInt := Atoi(text),
      asInt64 := Atoi(text),
      asReal := RealOf(text),
      asString := text,
      asBlob := BlobOf(text),
      asDate := DateOf(text),
      asDatetimeLocal := DatetimeOf(text),
      asDatetime := DatetimeOf(text),
      asTime := TimeOf(text))
  }

  /** Column `j` of the current result. libpq answers "null" for a column, or a result, that is not there. */
  function CellOf(res: Option<PGresult>, j: nat, dt: DataType): Cell {
    if res == None || !res.value.SingleTuple? || |res.value.row| <= j || res.value.row[j] == None then Null
    else Data(dt, ReadingsOf(res.value.row[j].value))
  }

  // ----- The server's text and the R value -----

  function Value(text: string, dt: DataType): DataTypes.Value
    requires dt != Unknown
  {
    Stored(Data(dt, ReadingsOf(text)), dt)
  }

  /** Integers printed by the server come back as themselves, except that the least one of either width is
      R's missing value. */
  lemma IntegerReadsBack(n: int)
    requires IsInt64(n)
    ensures IsInt32(n) ==>
      Value(Decimal(n), Int) == I32(n) && (Value(Decimal(n), Int) == NaOf(Int) <==> n == -0x8000_0000)
    ensures Value(Decimal(n), Int64) == I64(n)
    ensures Value(Decimal(n), Int64) == NaOf(Int64) <==> n == -0x8000_0000_0000_0000
  {
    AtoiOfDecimal(n);
  }

  /** The server prints t and f. */
  lemma BooleanReadsBack(b: bool)
    ensures Value(if b then "t" else "f", Bool) == Lgl(if b then 1 else 0)
  {
  }

  lemma TemporalValues(text: string)
    ensures Value(text, Date) == Dbl(DateOf(text)) && Value(text, Time) == Dbl(TimeOf(text))
    ensures Value(text, Datetime) == Value(text, DatetimeTz) == Dbl(DatetimeOf(text))
  {
  }

  /** Times come back as seconds since midnight; a zone after them is ignored. */
  lemma TimeReadsBack(hour: nat, min: nat, sec: nat, fraction: seq<int>, zone: Timestamp.Offset)
    requires hour < 100 && min < 100 && sec < 100 && AllDigits(fraction)
    requires zone.Offset? ==> zone.hours < 100 && (zone.minutes.Some? ==> zone.minutes.value < 100)
    ensures Value(Timestamp.TimeText(hour, min, sec, fraction) + Timestamp.OffsetText(zone), Time) ==
      Dbl(Num((hour * 3600 + min * 60) as real + sec as real + Timestamp.Fraction(fraction)))
  {
    hide Value, Timestamp.TimeValue, Timestamp.TimeText, Timestamp.OffsetText, Timestamp.Fraction, Timestamp.OffsetValue;
    TemporalValues(Timestamp.TimeText(hour, min, sec, fraction) + Timestamp.OffsetText(zone));
    Timestamp.OffsetReadsBack(zone);
    Timestamp.TimeReadsBack(hour, min, sec, fraction, Timestamp.OffsetText(zone));
  }

  /** Time stamps, with or without an offset, come back as POSIX seconds in UTC. */
  lemma DatetimeReadsBack(t: Timestamp.PqUtils.Date, hour: nat, min: nat, sec: nat, fraction: seq<int>, o: Timestamp.Offset)
    requires Timestamp.PqUtils.IsDate(t) && 0 <= t.y < 10000 && hour < 100 && min < 100 && sec < 100 && AllDigits(fraction)
    requires o.Offset? ==> o.hours < 100 && (o.minutes.Some? ==> o.minutes.value < 100)
    ensures var text := Timestamp.DatetimeText(t, hour, min, sec, fraction, o);
      && Value(text, Datetime) == Value(text, DatetimeTz)
      && Value(text, DatetimeTz) ==
           Dbl(Num(Timestamp.PqUtils.TmToTimeT(Timestamp.PqUtils.Tm(t.y - 1900, t.m - 1, t.d, hour, min, sec)) as real
                   + Timestamp.Fraction(fraction) - Timestamp.OffsetSeconds(o) as real))
  {
    hide Value, Timestamp.DatetimeValue, Timestamp.DatetimeText, Timestamp.DatetimeShaped, Timestamp.Fraction,
      Timestamp.OffsetSeconds, Timestamp.PqUtils.TmToTimeT;
    TemporalValues(Timestamp.DatetimeText(t, hour, min, sec, fraction, o));
    Timestamp.DatetimeReadsBack(t, hour, min, sec, fraction, o);
  }

  /** Dates come back as day numbers. */
  lemma DateReadsBack(t: Timestamp.PqUtils.Date)
    requires Timestamp.PqUtils.IsDate(t) && 0 <= t.y < 10000
    ensures Value(Timestamp.DateText(t), Date) == Dbl(Num(Timestamp.PqUtils.Days(t) as real))
  {
    hide Value, Timestamp.DateValue, Timestamp.DateText;
    TemporalValues(Timestamp.DateText(t));
    Timestamp.DateReadsBack(t, []);
    assert Timestamp.DateText(t) + [] == Timestamp.DateText(t);
  }

  /** Blobs in hex format come back byte for byte. */
  lemma BlobReadsBack(text: string, raw: seq<byte>)
    requires CopyEncode.Ascii(text) == Blob.HEX_PREFIX + Blob.HexText(raw)
    ensures Value(text, DataType.Blob) == Elt(Some(raw))
  {
    Blob.ByteaReads(raw);
  }
}
