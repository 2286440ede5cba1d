/** The encoder for COPY ... FROM STDIN (src/encode.cpp) and the loop that sends it (src/DbConnection.cpp:147-186).
    The buffer a C++ function appends to is passed in and handed back. */
module CopyEncode {
  import opened Base
  import opened DataTypes
  import opened Digits

  type bytes = seq<byte>

  const TAB: byte := 9
  const NEWLINE: byte := 10
  const CR: byte := 13
  const BACKSLASH: byte := 92
  const NULL_MARK: bytes := [BACKSLASH, 78]  // backslash, capital N

  const TRUE_TEXT: bytes := [116, 114, 117, 101]
  const FALSE_TEXT: bytes := [102, 97, 108, 115, 101]
  const NAN_TEXT: bytes := [78, 97, 78]
  const INFINITY_TEXT: bytes := [73, 110, 102, 105, 110, 105, 116, 121]

  /** The bytes of an ASCII string. */
  function Ascii(s: string): bytes {
    seq(|s|, k requires 0 <= k < |s| => (s[k] as int % 256) as byte)
  }

  /** A double: one of the special values, or finite with the text snprintf makes of it. */
  datatype RealCell = NaReal | NotANumber | Infinite(negative: bool) | Finite(text: bytes)

  /** A column of an R data frame. Logicals and integers carry R's missing value as a number. */
  datatype RColumn =
    | Logicals(flags: seq<int>)
    | Integers(ints: seq<int32>)
    | Reals(reals: seq<RealCell>)
    | Strings(strs: seq<Option<bytes>>)
    | Unsupported(length: nat)

  function Length(x: RColumn): nat {
    match x
    case Logicals(flags) => |flags|
    case Integers(ints) => |ints|
    case Reals(reals) => |reals|
    case Strings(strs) => |strs|
    case Unsupported(length) => length
  }

  datatype EncodeError = UnknownType

  // ----- Specification -----

  function EscapeByte(b: byte): (e: bytes)
    ensures e != []
  {
    if b == 8 then [BACKSLASH, 98]         // \b
    else if b == 12 then [BACKSLASH, 102]  // \f
    else if b == NEWLINE then [BACKSLASH, 110]
    else if b == CR then [BACKSLASH, 114]
    else if b == TAB then [BACKSLASH, 116]
    else if b == 11 then [BACKSLASH, 118]  // \v
    else if b == BACKSLASH then [BACKSLASH, BACKSLASH]
    else [b]
  }

  function Escape(s: bytes): bytes {
    if s == [] then [] else EscapeByte(s[0]) + Escape(s[1..])
  }

  /** The text the server should see for a cell; `None` for NULL. */
  function CellText(x: RColumn, i: nat): Option<bytes>
    requires i < Length(x) && !x.Unsupported?
  {
    match x
    case Logicals(flags) =>
      if flags[i] == 1 then Some(TRUE_TEXT) else if flags[i] == 0 then Some(FALSE_TEXT) else None
    case Integers(ints) =>
      if ints[i] == NA_INTEGER then None else Some(Ascii(Decimal(ints[i])))
    case Reals(reals) =>
      (match reals[i]
       case NaReal => None
       case NotANumber => Some(NAN_TEXT)
       case Infinite(negative) => Some(if negative then [45] + INFINITY_TEXT else INFINITY_TEXT)
       case Finite(text) => Some(text))
    case Strings(strs) => strs[i]
  }

  /** How a cell is written: NULL as the null mark, anything else escaped. */
  function Field(text: Option<bytes>): bytes {
    if text == None then NULL_MARK else Escape(text.value)
  }

  /** Nothing in the text needs escaping. */
  predicate Plain(s: bytes) {
    forall k :: 0 <= k < |s| ==> EscapeByte(s[k]) == [s[k]]
  }

  /** The texts snprintf makes of finite doubles contain nothing to escape. */
  predicate PlainReals(x: RColumn) {
    x.Reals? ==> forall i :: 0 <= i < |x.reals| && x.reals[i].Finite? ==> Plain(x.reals[i].text)
  }

  type Rows = seq<seq<Option<bytes>>>

  predicate Rectangle(df: seq<RColumn>) {
    forall j :: 0 <= j < |df| ==> Length(df[j]) == Length(df[0]) && PlainReals(df[j])
  }

  predicate Supported(df: seq<RColumn>) {
    forall j :: 0 <= j < |df| ==> !df[j].Unsupported?
  }

  /** Row `i` of a data frame, as the server should see it. */
  function RowTexts(df: seq<RColumn>, i: nat): (row: seq<Option<bytes>>)
    requires Rectangle(df) && Supported(df) && (df != [] ==> i < Length(df[0]))
    ensures |row| == |df|
  {
    seq(|df|, j requires 0 <= j < |df| => CellText(df[j], i))
  }

  function AllRowTexts(df: seq<RColumn>): (rows: Rows)
    requires df != [] && Rectangle(df) && Supported(df)
    ensures |rows| == Length(df[0])
  {
    seq(Length(df[0]), i requires 0 <= i < Length(df[0]) => RowTexts(df, i))
  }

  /** The fields of a row, separated by tabs. */
  function Joined(row: seq<Option<bytes>>): bytes {
    if row == [] then []
    else if |row| == 1 then Field(row[0])
    else Field(row[0]) + [TAB] + Joined(row[1..])
  }

  function Line(row: seq<Option<bytes>>): bytes {
    Joined(row) + [NEWLINE]
  }

  function Lines(rows: Rows): bytes {
    if rows == [] then [] else Line(rows[0]) + Lines(rows[1..])
  }

  lemma {:induction false} PlainEscapes(s: bytes)
    requires Plain(s)
    ensures Escape(s) == s
  {
    if s != [] {
      PlainEscapes(s[1..]);
    }
  }

  /** Digits need no escaping. */
  lemma DigitsArePlain(ds: seq<int>)
    requires AllDigits(ds)
    ensures Plain(Ascii(Text(ds)))
  {
    forall k | 0 <= k < |ds| ensures EscapeByte(Ascii(Text(ds))[k]) == [Ascii(Text(ds))[k]] {
      assert Text(ds)[k] as int == 48 + ds[k];
      assert Ascii(Text(ds))[k] as int == 48 + ds[k];
    }
  }

  lemma DecimalIsPlain(n: int)
    ensures Plain(Ascii(Decimal(n)))
  {
    hide Text, DigitsOf;
    var digits := Text(DigitsOf(if n < 0 then -n else n));
    DigitsArePlain(DigitsOf(if n < 0 then -n else n));
    if n < 0 {
      assert Ascii("-" + digits) == [45] + Ascii(digits);
    }
  }

  /** Only strings ever need escaping. */
  lemma OnlyStringsEscape(x: RColumn, i: nat)
    requires i < Length(x) && !x.Unsupported? && !x.Strings? && PlainReals(x)
    ensures Field(CellText(x, i)) == if CellText(x, i) == None then NULL_MARK else CellText(x, i).value
  {
    hide Escape;
    if x.Integers? {
      DecimalIsPlain(x.ints[i]);
    }
    if CellText(x, i).Some? {
      PlainEscapes(CellText(x, i).value);
    }
  }

  // ----- The code -----

  method EscapeInBuffer(s: bytes, buffer: bytes) returns (out: bytes)
    ensures out == buffer + Escape(s)
  {
    hide Escape;
    out := buffer;
    EscapeNothing();
    for i := 0 to |s|
      invariant out + Escape(s[i..]) == buffer + Escape(s)
    {
      var b := s[i];
      EscapeStep(s, i);
      ghost var was := out;
      out :=
        if b == 8 then out + [BACKSLASH, 98]
        else if b == 12 then out + [BACKSLASH, 102]
        else if b == NEWLINE then out + [BACKSLASH, 110]
        else if b == CR then out + [BACKSLASH, 114]
        else if b == TAB then out + [BACKSLASH, 116]
        else if b == 11 then out + [BACKSLASH, 118]
        else if b == BACKSLASH then out + [BACKSLASH, BACKSLASH]
        else out + [b];
      assert out == was + EscapeByte(b);
      assert was + (EscapeByte(b) + Escape(s[i + 1..])) == out + Escape(s[i + 1..]);
    }
    assert s[|s|..] == [] && out + [] == out;
  }

  lemma EscapeNothing()
    ensures Escape([]) == []
  {
  }

  lemma EscapeStep(s: bytes, i: nat)
    requires i < |s|
    ensures Escape(s[i..]) == EscapeByte(s[i]) + Escape(s[i + 1..])
    ensures s[0..] == s
  {
    assert s[i..][1..] == s[i + 1..];
  }

  method EncodeInBuffer(x: RColumn, i: nat, buffer: bytes) returns (r: Result<bytes, EncodeError>)
    requires i < Length(x) && PlainReals(x)
    ensures r.Err? <==> x.Unsupported?
    ensures r.Ok? ==> r.value == buffer + Field(CellText(x, i))
  {
    hide Field, PlainReals;
    if !x.Unsupported? && !x.Strings? {
      OnlyStringsEscape(x, i);
    }
    match x {
      case Logicals(flags) =>
        var value := flags[i];
        if value == 1 {
          r := Ok(buffer + TRUE_TEXT);
        } else if value == 0 {
          r := Ok(buffer + FALSE_TEXT);
        } else {
          r := Ok(buffer + NULL_MARK);
        }
      case Integers(ints) =>
        var value := ints[i];
        if value == NA_INTEGER {
          r := Ok(buffer + NULL_MARK);
        } else {
          r := Ok(buffer + Ascii(Decimal(value)));
        }
      case Reals(reals) =>
        match reals[i] {
          case NaReal => r := Ok(buffer + NULL_MARK);
          case NotANumber => r := Ok(buffer + NAN_TEXT);
          case Infinite(negative) => r := Ok(buffer + if negative then [45] + INFINITY_TEXT else INFINITY_TEXT);
          case Finite(text) => r := Ok(buffer + text);
        }
      case Strings(strs) =>
        FieldOf(strs[i]);
        if strs[i] == None {
          r := Ok(buffer + NULL_MARK);
        } else {
          var out := EscapeInBuffer(strs[i].value, buffer);
          r := Ok(out);
        }
      case Unsupported(_) =>
        r := Err(UnknownType);
    }
  }

  lemma FieldOf(text: Option<bytes>)
    ensures Field(text) == if text == None then NULL_MARK else Escape(text.value)
  {
  }

  method EncodeRowInBuffer(x: seq<RColumn>, i: nat, buffer: bytes) returns (r: Result<bytes, EncodeError>)
    requires Rectangle(x) && (x != [] ==> i < Length(x[0]))
    ensures r.Err? <==> !Supported(x)
    ensures r.Ok? ==> r.value == buffer + Line(RowTexts(x, i))
  {
    hide Field, CellText, PlainReals;
    var out := buffer;
    for j := 0 to |x|
      invariant Supported(x[..j])
      invariant Supported(x) ==> out + Joined(RowTexts(x, i)[j..]) == buffer + Joined(RowTexts(x, i))
    {
      var cell := EncodeInBuffer(x[j], i, out);
      if cell.Err? {
        return Err(cell.error);
      }
      if Supported(x) {
        JoinedStep(RowTexts(x, i), j);
      }
      out := cell.value;
      if j != |x| - 1 {
        out := out + [TAB];
      }
    }
    assert x[..|x|] == x;
    ghost var rest := RowTexts(x, i)[|x|..];
    assert out + Joined(rest) == out;
    assert (buffer + Joined(RowTexts(x, i))) + [NEWLINE] == buffer + Line(RowTexts(x, i));
    r := Ok(out + [NEWLINE]);
  }

  lemma JoinedStep(row: seq<Option<bytes>>, j: nat)
    requires j < |row|
    ensures Joined(row[j..]) == Field(row[j]) + (if j == |row| - 1 then [] else [TAB]) + Joined(row[j + 1..])
  {
    assert row[j..][1..] == row[j + 1..];
  }

  method EncodeDataFrame(x: seq<RColumn>) returns (r: Result<bytes, EncodeError>)
    requires Rectangle(x)
    ensures r.Err? <==> x != [] && Length(x[0]) > 0 && !Supported(x)
    ensures x == [] ==> r == Ok([])
    ensures x != [] && Supported(x) ==> r == Ok(Lines(AllRowTexts(x)))
  {
    hide RowTexts, Line, Rectangle, Supported;
    if |x| == 0 {
      return Ok([]);
    }
    var n := Length(x[0]);
    var buffer := [];
    for i := 0 to n
      invariant i > 0 ==> Supported(x)
      invariant Supported(x) ==> buffer + Lines(AllRowTexts(x)[i..]) == Lines(AllRowTexts(x))
    {
      var row := EncodeRowInBuffer(x, i, buffer);
      if row.Err? {
        return Err(row.error);
      }
      LinesStep(AllRowTexts(x), i);
      buffer := row.value;
    }
    assert Supported(x) ==> buffer + Lines(AllRowTexts(x)[n..]) == buffer;
    r := Ok(buffer);
  }

  lemma LinesStep(rows: Rows, i: nat)
    requires i < |rows|
    ensures Lines(rows[i..]) == Line(rows[i]) + Lines(rows[i + 1..])
  {
    assert rows[i..][1..] == rows[i + 1..];
  }

  lemma {:induction false} LinesAppend(a: Rows, b: Rows)
    ensures Lines(a + b) == Lines(a) + Lines(b)
  {
    if a == [] {
      assert a + b == b;
    } else {
      assert (a + b)[1..] == a[1..] + b;
      LinesAppend(a[1..], b);
    }
  }

  /** What is sent row by row is, put together, what the whole frame encodes to. */
  lemma {:induction false} SentIsEncoded(rows: Rows)
    ensures Concat(seq(|rows|, i requires 0 <= i < |rows| => Line(rows[i]))) == Lines(rows)
  {
    hide Line, Lines;
    var sent := seq(|rows|, i requires 0 <= i < |rows| => Line(rows[i]));
    if rows == [] {
      LinesOfNone();
    } else {
      var n := |rows| - 1;
      var front := rows[..n];
      SentIsEncoded(front);
      assert sent[..n] == seq(|front|, i requires 0 <= i < |front| => Line(front[i]));
      LinesAppend(front, [rows[n]]);
      LinesOfOne(rows[n]);
      assert rows == front + [rows[n]];
    }
  }

  lemma LinesOfNone()
    ensures Lines([]) == []
  {
  }

  lemma LinesOfOne(row: seq<Option<bytes>>)
    ensures Lines([row]) == Line(row)
  {
    assert [row][1..] == [];
    assert Lines([row]) == Line(row) + Lines([]);
  }

  /** How the server takes a COPY: whether it opens it, takes the i-th message and the end, and accepts the data. */
  datatype CopyServer = CopyServer(opens: bool, takes: nat -> bool, ends: bool, accepts: bool)

  datatype CopyError = NotOpened | NotEncoded(error: EncodeError) | NotTaken | NotEnded | NotAccepted

  /** The messages sent for a data frame, one for each row, until one cannot be encoded or is not taken; no COPY
      is started for a frame without columns. */
  method CopyData(df: seq<RColumn>, server: CopyServer) returns (sent: seq<bytes>, r: Result<(), CopyError>)
    requires Rectangle(df)
    ensures df == [] ==> sent == [] && r.Ok?
    ensures df != [] ==>
      && |sent| <= Length(df[0])
      && (r.Ok? <==>
            && server.opens && server.ends && server.accepts && (Length(df[0]) > 0 ==> Supported(df))
            && forall i :: 0 <= i < Length(df[0]) ==> server.takes(i))
      && (r.Ok? ==> |sent| == Length(df[0]))
    ensures Supported(df) ==> forall i :: 0 <= i < |sent| ==> sent[i] == Line(RowTexts(df, i))
    ensures forall i :: 0 <= i < |sent| ==> server.takes(i)
  {
    hide RowTexts, Line, Rectangle, Supported;
    sent, r := [], Ok(());
    if |df| == 0 {
      return;
    }
    if !server.opens {
      return sent, Err(NotOpened);
    }
    var buffer := [];
    var n := Length(df[0]);
    for i := 0 to n
      invariant i > 0 ==> Supported(df)
      invariant |sent| == i
      invariant Supported(df) ==> forall k :: 0 <= k < i ==> sent[k] == Line(RowTexts(df, k))
      invariant forall k :: 0 <= k < i ==> server.takes(k)
    {
      buffer := [];
      var row := EncodeRowInBuffer(df, i, buffer);
      if row.Err? {
        return sent, Err(NotEncoded(row.error));
      }
      if !server.takes(i) {
        return sent, Err(NotTaken);
      }
      buffer := row.value;
      sent := sent + [buffer];
    }
    if !server.ends {
      return sent, Err(NotEnded);
    }
    if !server.accepts {
      return sent, Err(NotAccepted);
    }
  }
}
