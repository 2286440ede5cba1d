/** What an R value has to be, for each type of the server: the promise of the reader, and that it is kept. */
module ServerValues {
  import opened Base
  import opened DataTypes
  import opened Digits
  import opened Libpq
  import opened Timestamp
  import opened ResultFuture
  import PqUtils
  import PqColumnDataSource
  import CopyEncode
  import Blob

  /** A value of the server, given as text or NULL, and the R value for it. The types are given by their OIDs, and
      missing values by their numbers: this says what the reader promises without saying how it reads. */
  ghost predicate Shows(oid: nat, field: Option<string>, v: Value) {
    if oid == 16 then ShowsLogical(field, v)
    else if oid == 21 || oid == 23 || oid == 26 then ShowsInteger(field, v)
    else if oid == 20 then ShowsInteger64(field, v)
    else if oid == 700 || oid == 701 || oid == 790 || oid == 1700 then ShowsReal(field, v)
    else if oid == 1082 then ShowsDate(field, v)
    else if oid == 1083 || oid == 1266 then ShowsTime(field, v)
    else if oid == 1114 || oid == 1184 then ShowsDatetime(field, v)
    else if oid == 17 || oid == 2278 then ShowsBlob(field, v)
    else v == Chr(field)
  }

  predicate ShowsLogical(field: Option<string>, v: Value) {
    v == Lgl(if field == None then -2147483648 else if field.value == "t" then 1 else 0)
  }

  ghost predicate ShowsInteger(field: Option<string>, v: Value) {
    && (field == None ==> v == I32(-2147483648))
    && forall n :: IsInt32(n) && field == Some(Decimal(n)) ==> v == I32(n)
  }

  ghost predicate ShowsInteger64(field: Option<string>, v: Value) {
    && (field == None ==> v == I64(-9223372036854775808))
    && forall n :: IsInt64(n) && field == Some(Decimal(n)) ==> v == I64(n)
  }

  predicate ShowsReal(field: Option<string>, v: Value) {
    v == Dbl(if field == None then NaReal
             else if field.value == "NaN" then NotANumber
             else if field.value == "Infinity" then Infinite(false)
             else if field.value == "-Infinity" then Infinite(true)
             else Parsed(field.value))
  }

  ghost predicate ShowsDate(field: Option<string>, v: Value) {
    && (field == None ==> v == Dbl(NaReal))
    && forall t: PqUtils.Date ::
         PqUtils.IsDate(t) && 0 <= t.y < 10000 && field == Some(DateText(t)) ==>
           v == Dbl(Num(PqUtils.Days(t) as real))
  }

  /** A time of day, or a time stamp, as the server prints it. */
  datatype Clock = Clock(hour: nat, min: nat, sec: nat, fraction: seq<int>, zone: Offset)

  predicate IsClock(c: Clock) {
    && c.hour < 100 && c.min < 100 && c.sec < 100 && AllDigits(c.fraction)
    && (c.zone.Offset? ==> c.zone.hours < 100 && (c.zone.minutes.Some? ==> c.zone.minutes.value < 100))
  }

  function ClockText(c: Clock): string
    requires IsClock(c)
  {
    TimeText(c.hour, c.min, c.sec, c.fraction) + OffsetText(c.zone)
  }

  /** Seconds since midnight; a zone is ignored. */
  function ClockSeconds(c: Clock): real
    requires IsClock(c)
  {
    (c.hour * 3600 + c.min * 60) as real + c.sec as real + Fraction(c.fraction)
  }

  ghost predicate ShowsTime(field: Option<string>, v: Value) {
    && (field == None ==> v == Dbl(NaReal))
    && forall c: Clock :: IsClock(c) && field == Some(ClockText(c)) ==>
         v == Dbl(Num(ClockSeconds(c)))
  }

  function StampText(t: PqUtils.Date, c: Clock): string
    requires PqUtils.IsDate(t) && 0 <= t.y < 10000 && IsClock(c)
  {
    DatetimeText(t, c.hour, c.min, c.sec, c.fraction, c.zone)
  }

  /** Seconds since the epoch, in UTC. */
  function StampSeconds(t: PqUtils.Date, c: Clock): real
    requires IsClock(c)
  {
    PqUtils.TmToTimeT(PqUtils.Tm(t.y - 1900, t.m - 1, t.d, c.hour, c.min, c.sec)) as real
    + Fraction(c.fraction) - OffsetSeconds(c.zone) as real
  }

  ghost predicate ShowsDatetime(field: Option<string>, v: Value) {
    && (field == None ==> v == Dbl(NaReal))
    && forall t: PqUtils.Date, c: Clock ::
         PqUtils.IsDate(t) && 0 <= t.y < 10000 && IsClock(c) && field == Some(StampText(t, c)) ==>
           v == Dbl(Num(StampSeconds(t, c)))
  }

  ghost predicate ShowsBlob(field: Option<string>, v: Value) {
    && (field == None ==> v == Elt(None))
    && forall raw: seq<byte> :: field.Some? && CopyEncode.Ascii(field.value) == [92, 120] + Blob.HexText(raw) ==> v == Elt(Some(raw))
  }

  // ----- The reader keeps the promise -----

  /** What a column of type `dt` stores for a field. */
  function Read(field: Option<string>, dt: DataType): Value
    requires dt != Unknown
  {
    Stored(if field == None then Null else Data(dt, PqColumnDataSource.ReadingsOf(field.value)), dt)
  }

  /** For every type of the server, known or not. */
  lemma ReadShows(oid: nat, field: Option<string>)
    ensures Shows(oid, field, Read(field, ColumnType(oid)))
  {
    hide Read, ShowsLogical, ShowsInteger, ShowsInteger64, ShowsReal, ShowsDate, ShowsTime, ShowsDatetime, ShowsBlob;
    var dt := ColumnType(oid);
    match dt {
      case Bool => LogicalShows(field);
      case Int => IntegerShows(field);
      case Int64 => Integer64Shows(field);
      case Real => RealShows(field);
      case Date => DateShows(field);
      case Time => TimeShows(field);
      case Datetime => DatetimeShows(field);
      case DatetimeTz => DatetimeShows(field);
      case Blob => BlobShows(field);
      case _ => TextShows(field);
    }
  }

  lemma LogicalShows(field: Option<string>)
    ensures ShowsLogical(field, Read(field, Bool))
  {
  }

  lemma TextShows(field: Option<string>)
    ensures Read(field, Str) == Chr(field)
  {
  }

  lemma RealShows(field: Option<string>)
    ensures ShowsReal(field, Read(field, Real))
  {
  }

  lemma IntegerShows(field: Option<string>)
    ensures ShowsInteger(field, Read(field, Int))
  {
    forall n | IsInt32(n) && field == Some(Decimal(n))
      ensures Read(field, Int) == I32(n)
    {
      PqColumnDataSource.IntegerReadsBack(n);
    }
  }

  lemma Integer64Shows(field: Option<string>)
    ensures ShowsInteger64(field, Read(field, Int64))
  {
    forall n | IsInt64(n) && field == Some(Decimal(n))
      ensures Read(field, Int64) == I64(n)
    {
      PqColumnDataSource.IntegerReadsBack(n);
    }
  }

  lemma ReadIsValue(text: string, dt: DataType)
    requires dt != Unknown
    ensures Read(Some(text), dt) == PqColumnDataSource.Value(text, dt)
  {
  }

  lemma ReadsNull()
    ensures Read(None, Date) == Read(None, Time) == Read(None, Datetime) == Read(None, DatetimeTz) == Dbl(NaReal)
    ensures Read(None, DataType.Blob) == Elt(None)
  {
  }

  lemma DateShows(field: Option<string>)
    ensures ShowsDate(field, Read(field, Date))
  {
    hide Read, PqColumnDataSource.Value, DateText, PqUtils.Days;
    ReadsNull();
    forall t: PqUtils.Date | PqUtils.IsDate(t) && 0 <= t.y < 10000 && field == Some(DateText(t))
      ensures Read(field, Date) == Dbl(Num(PqUtils.Days(t) as real))
    {
      ReadIsValue(field.value, Date);
      PqColumnDataSource.DateReadsBack(t);
    }
  }

  lemma ClockReads(c: Clock)
    requires IsClock(c)
    ensures Read(Some(ClockText(c)), Time) == Dbl(Num(ClockSeconds(c)))
  {
    hide Read, PqColumnDataSource.Value, TimeText, OffsetText, Fraction;
    PqColumnDataSource.TimeReadsBack(c.hour, c.min, c.sec, c.fraction, c.zone);
    ReadIsValue(TimeText(c.hour, c.min, c.sec, c.fraction) + OffsetText(c.zone), Time);
  }

  lemma TimeShows(field: Option<string>)
    ensures ShowsTime(field, Read(field, Time))
  {
    hide Read, ClockText, Fraction, IsClock;
    ReadsNull();
    forall c: Clock | IsClock(c) && field == Some(ClockText(c))
      ensures Read(field, Time) == Dbl(Num(ClockSeconds(c)))
    {
      ClockReads(c);
    }
  }

  lemma StampReads(t: PqUtils.Date, c: Clock)
    requires PqUtils.IsDate(t) && 0 <= t.y < 10000 && IsClock(c)
    ensures Read(Some(StampText(t, c)), Datetime) == Read(Some(StampText(t, c)), DatetimeTz) == Dbl(Num(StampSeconds(t, c)))
  {
    hide Read, PqColumnDataSource.Value, DatetimeText, Fraction, OffsetSeconds, PqUtils.TmToTimeT;
    PqColumnDataSource.DatetimeReadsBack(t, c.hour, c.min, c.sec, c.fraction, c.zone);
    ReadIsValue(StampText(t, c), Datetime);
    ReadIsValue(StampText(t, c), DatetimeTz);
  }

  lemma DatetimeShows(field: Option<string>)
    ensures ShowsDatetime(field, Read(field, Datetime)) && ShowsDatetime(field, Read(field, DatetimeTz))
  {
    hide Read, StampText, IsClock, PqUtils.IsDate, PqUtils.TmToTimeT, Fraction, OffsetSeconds;
    ReadsNull();
    forall t: PqUtils.Date, c: Clock | PqUtils.IsDate(t) && 0 <= t.y < 10000 && IsClock(c) && field == Some(StampText(t, c))
      ensures Read(field, Datetime) == Read(field, DatetimeTz) == Dbl(Num(StampSeconds(t, c)))
    {
      StampReads(t, c);
    }
  }

  lemma BlobShows(field: Option<string>)
    ensures ShowsBlob(field, Read(field, DataType.Blob))
  {
    hide Read, PqColumnDataSource.Value, CopyEncode.Ascii, Blob.HexText;
    ReadsNull();
    forall raw: seq<byte> | field.Some? && CopyEncode.Ascii(field.value) == [92, 120] + Blob.HexText(raw)
      ensures Read(field, DataType.Blob) == Elt(Some(raw))
    {
      ReadIsValue(field.value, DataType.Blob);
      PqColumnDataSource.BlobReadsBack(field.value, raw);
    }
  }
}
