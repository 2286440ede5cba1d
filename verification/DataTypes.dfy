/** The element types of result columns and the R values stored for them (src/DbColumnDataType.h, src/DbColumnStorage.cpp). */
module DataTypes {
  import opened Base

  datatype DataType =
    | Unknown | Bool | Int | Int64 | Real | Str | Blob | Date | Datetime | DatetimeTz | Time

  /** An R double. Only its identity matters here: text that libc turns into a double stays a token. */
  datatype Double = NaReal | NotANumber | Infinite(negative: bool) | Num(x: real) | Parsed(text: string)

  newtype byte = x: int | 0 <= x < 256

  const NA_INTEGER: int := -0x8000_0000
  const NA_INTEGER64: int := -0x8000_0000_0000_0000

  /** One element of an R vector: logical, integer, integer64, double, character or list. */
  datatype Value =
    | Lgl(flag: int)
    | I32(int32: int)
    | I64(int64: int)
    | Dbl(num: Double)
    | Chr(str: Option<string>)
    | Elt(raw: Option<seq<byte>>)

  /** The missing value of each element type. */
  function NaOf(dt: DataType): Value
    requires dt != Unknown
  {
    match dt
    case Bool => Lgl(NA_INTEGER)
    case Int => I32(NA_INTEGER)
    case Int64 => I64(NA_INTEGER64)
    case Str => Chr(None)
    case Blob => Elt(None)
    case _ => Dbl(NaReal)
  }

  /** What a data source answers to each of its fetch functions for the current row. */
  datatype Readings = Readings(
    asBool: int,
    asInt: int,
    asInt64: int,
    asReal: Double,
    asString: string,
    asBlob: seq<byte>,
    asDate: Double,
    asDatetimeLocal: Double,
    asDatetime: Double,
    asTime: Double)

  /** One cell of one row, as a data source presents it. */
  datatype Cell = Null | Data(reported: DataType, readings: Readings)

  /** Every source names a real type for a value that is present. */
  predicate Known(cell: Cell) {
    cell.Data? ==> cell.reported != Unknown
  }

  function FetchAs(r: Readings, dt: DataType): Value
    requires dt != Unknown
  {
    match dt
    case Bool => Lgl(r.asBool)
    case Int => I32(r.asInt)
    case Int64 => I64(r.asInt64)
    case Real => Dbl(r.asReal)
    case Str => Chr(Some(r.asString))
    case Blob => Elt(Some(r.asBlob))
    case Date => Dbl(r.asDate)
    case Datetime => Dbl(r.asDatetimeLocal)
    case DatetimeTz => Dbl(r.asDatetime)
    case Time => Dbl(r.asTime)
  }

  /** The element a vector of type `dt` receives for a cell. */
  function Stored(cell: Cell, dt: DataType): Value
    requires dt != Unknown
  {
    if cell.Null? then NaOf(dt) else FetchAs(cell.readings, dt)
  }

  /** The type a column has after one more cell, given the type it had before. */
  function Promote(dt: DataType, cell: Cell): DataType {
    if cell.Null? then dt
    else if dt == Unknown then cell.reported
    else if dt == Int && cell.reported in {Int64, Real} then cell.reported
    else dt
  }

  /** A column of the first type may later turn out to be one of the second. */
  predicate Widens(a: DataType, b: DataType) {
    a == b || a == Unknown || (a == Int && b in {Int64, Real})
  }

  /** Carry an element of a vector of type `a` over to a vector of type `b`. */
  function Widen(v: Value, a: DataType, b: DataType): Value
    requires a != Unknown && b != Unknown && Widens(a, b)
    requires a == Int ==> v.I32?
  {
    if a == b then v
    else if v.int32 == NA_INTEGER then NaOf(b)
    else if b == Int64 then I64(v.int32)
    else Dbl(Num(v.int32 as real))
  }
}
