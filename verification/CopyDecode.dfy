/** How the server reads COPY data in text format: PostgreSQL manual, SQL Commands, COPY, section
    "File Formats", "Text Format". With it, the proof that the encoder says what it means. */
module CopyDecode {
  import opened Base
  import opened DataTypes
  import opened Digits
  import opened CopyEncode

  /** The server's own view of the bytes that matter: 9 tab, 10 newline, 13 carriage return, 92 backslash. */
  const END_MARK: bytes := [92, 46]  // backslash, period

  /** A backslash takes the next byte with it. */
  function UnitLength(s: bytes): (u: nat)
    requires s != []
    ensures 1 <= u <= |s|
  {
    if s[0] == 92 && |s| >= 2 then 2 else 1
  }

  /** Position of the first delimiter that is not escaped, or the length. */
  function Find(s: bytes, delimiter: byte): (e: nat)
    ensures e <= |s|
    decreases |s|
  {
    if s == [] || s[0] == delimiter then 0
    else UnitLength(s) + Find(s[UnitLength(s)..], delimiter)
  }

  predicate HasRawCR(s: bytes)
    decreases |s|
  {
    s != [] && (s[0] == 13 || HasRawCR(s[UnitLength(s)..]))
  }

  function Split(s: bytes, delimiter: byte): seq<bytes>
    decreases |s|
  {
    var e := Find(s, delimiter);
    if e == |s| then [s] else [s[..e]] + Split(s[e + 1..], delimiter)
  }

  predicate IsOctal(b: byte) {
    48 <= b <= 55
  }

  predicate IsHex(b: byte) {
    48 <= b <= 57 || 65 <= b <= 70 || 97 <= b <= 102
  }

  function HexValue(b: byte): (v: int)
    requires IsHex(b)
    ensures 0 <= v < 16
  {
    var c := b as int;
    if c <= 57 then c - 48 else if c <= 70 then c - 55 else c - 87
  }

  /** How many of the next bytes, at most `limit`, belong to an octal escape. */
  function OctalRun(s: bytes, limit: nat): (n: nat)
    ensures n <= |s| && n <= limit
    ensures forall k :: 0 <= k < n ==> IsOctal(s[k])
  {
    if limit == 0 || s == [] || !IsOctal(s[0]) then 0 else 1 + OctalRun(s[1..], limit - 1)
  }

  function OctalValue(s: bytes): (v: int)
    requires forall k :: 0 <= k < |s| ==> IsOctal(s[k])
  {
    if s == [] then 0 else 8 * OctalValue(s[..|s| - 1]) + (s[|s| - 1] as int - 48)
  }

  /** The byte an escape letter stands for. */
  function Letter(b: byte): byte {
    if b == 98 then 8 else if b == 102 then 12 else if b == 110 then 10
    else if b == 114 then 13 else if b == 116 then 9 else if b == 118 then 11 else b
  }

  /** De-escaping of one field, with octal escapes of up to three digits and hex escapes of up to two. */
  function Unescape(s: bytes): bytes
    decreases |s|
  {
    if s == [] then []
    else if s[0] != 92 then [s[0]] + Unescape(s[1..])
    else if |s| == 1 then []
    else if IsOctal(s[1]) then
      var n := OctalRun(s[1..], 3);
      [(OctalValue(s[1..][..n]) % 256) as byte] + Unescape(s[1 + n..])
    else if s[1] == 120 && |s| > 2 && IsHex(s[2]) then
      if |s| > 3 && IsHex(s[3]) then
        [(HexValue(s[2]) * 16 + HexValue(s[3])) as byte] + Unescape(s[4..])
      else
        [HexValue(s[2]) as byte] + Unescape(s[3..])
    else
      [Letter(s[1])] + Unescape(s[2..])
  }

  function DecodeField(raw: bytes): Option<bytes> {
    if raw == [92, 78] then None else Some(Unescape(raw))
  }

  function DecodeLine(line: bytes): seq<Option<bytes>> {
    var raws := Split(line, 9);
    seq(|raws|, j requires 0 <= j < |raws| => DecodeField(raws[j]))
  }

  /** All rows up to the end of the data or the end mark; `None` if a bare carriage return spoils a line. */
  function Decode(s: bytes): Option<Rows>
    decreases |s|
  {
    if s == [] then Some([])
    else
      var e := Find(s, 10);
      var line := s[..e];
      if HasRawCR(line) then None
      else if line == END_MARK then Some([])
      else
        var more := if e == |s| then Some([]) else Decode(s[e + 1..]);
        if more == None then None else Some([DecodeLine(line)] + more.value)
  }

  // ----- Bytes and fields -----

  /** Scanning passes over a unit that does not start with what is looked for. */
  lemma UnitPasses(unit: bytes, rest: bytes, delimiter: byte)
    requires unit != [] && UnitLength(unit + rest) == |unit| && unit[0] != delimiter
    ensures Find(unit + rest, delimiter) == |unit| + Find(rest, delimiter)
    ensures unit[0] != CR ==> HasRawCR(unit + rest) == HasRawCR(rest)
  {
    assert (unit + rest)[|unit|..] == rest;
  }

  /** An escaped byte is one unit that starts with no delimiter, and it reads back as the byte. */
  lemma EscapeByteReads(b: byte, rest: bytes)
    ensures var e := EscapeByte(b);
      && UnitLength(e + rest) == |e|
      && e[0] !in {TAB, NEWLINE, CR}
      && Unescape(e + rest) == [b] + Unescape(rest)
  {
    var e := EscapeByte(b);
    assert (e + rest)[|e|..] == rest;
    if |e| == 2 {
      assert (e + rest)[2..] == rest;
      assert !IsOctal(e[1]) && e[1] != 120 && Letter(e[1]) == b;
    } else {
      assert (e + rest)[1..] == rest;
    }
  }

  lemma {:induction false} EscapeReads(s: bytes, rest: bytes, delimiter: byte)
    requires delimiter in {TAB, NEWLINE}
    ensures Find(Escape(s) + rest, delimiter) == |Escape(s)| + Find(rest, delimiter)
    ensures HasRawCR(Escape(s) + rest) == HasRawCR(rest)
    ensures Unescape(Escape(s) + rest) == s + Unescape(rest)
  {
    hide Unescape, Find, HasRawCR, EscapeByte, UnitLength;
    if s == [] {
      assert Escape(s) + rest == rest;
      assert s + Unescape(rest) == Unescape(rest);
    } else {
      var more := Escape(s[1..]) + rest;
      EscapeByteReads(s[0], more);
      UnitPasses(EscapeByte(s[0]), more, delimiter);
      EscapeReads(s[1..], rest, delimiter);
      assert Escape(s) + rest == EscapeByte(s[0]) + more;
      assert [s[0]] + (s[1..] + Unescape(rest)) == s + Unescape(rest);
    }
  }

  lemma FieldReads(text: Option<bytes>, rest: bytes, delimiter: byte)
    requires delimiter in {TAB, NEWLINE}
    ensures Find(Field(text) + rest, delimiter) == |Field(text)| + Find(rest, delimiter)
    ensures HasRawCR(Field(text) + rest) == HasRawCR(rest)
    ensures DecodeField(Field(text)) == text
  {
    if text == None {
      assert (NULL_MARK + rest)[2..] == rest;
    } else {
      EscapeReads(text.value, rest, delimiter);
      EscapeReads(text.value, [], delimiter);
      assert Escape(text.value) + [] == Escape(text.value);
      assert text.value + Unescape([]) == text.value;
      NeverAMark(text.value);
    }
  }

  /** No text is written as the null mark, not even a backslash followed by an N, nor as the end mark. */
  lemma NeverAMark(s: bytes)
    ensures Escape(s) != NULL_MARK && Escape(s) != END_MARK
  {
    if s != [] {
      var e := EscapeByte(s[0]);
      assert Escape(s)[0] == e[0];
      if |e| == 2 {
        assert Escape(s)[1] == e[1];
      }
    }
  }

  // ----- Lines -----

  lemma {:induction false} JoinedReads(row: seq<Option<bytes>>, rest: bytes)
    ensures Find(Joined(row) + rest, NEWLINE) == |Joined(row)| + Find(rest, NEWLINE)
    ensures HasRawCR(Joined(row) + rest) == HasRawCR(rest)
    decreases |row|
  {
    hide Find, HasRawCR, Field, Joined;
    if row == [] {
      JoinedNothing();
      assert Joined(row) + rest == rest;
      return;
    }
    JoinedParts(row);
    if |row| == 1 {
      FieldReads(row[0], rest, NEWLINE);
    } else {
      var more := Joined(row[1..]) + rest;
      FieldReads(row[0], [TAB] + more, NEWLINE);
      UnitPasses([TAB], more, NEWLINE);
      JoinedReads(row[1..], rest);
      Regroup(Field(row[0]), [TAB], Joined(row[1..]), rest);
    }
  }

  lemma {:induction false} JoinedSplits(row: seq<Option<bytes>>)
    requires row != []
    ensures Split(Joined(row), TAB) == Fields(row)
    decreases |row|
  {
    hide Find, HasRawCR, Field, Fields, Joined, Split;
    JoinedParts(row);
    FieldsParts(row);
    if |row| == 1 {
      FieldReads(row[0], [], TAB);
      SplitNowhere(Field(row[0]), TAB);
    } else {
      var more := Joined(row[1..]);
      FieldReads(row[0], [TAB] + more, TAB);
      SplitStep(Field(row[0]), more, TAB);
      JoinedSplits(row[1..]);
    }
  }

  /** The fields of a row, as they are written. */
  function Fields(row: seq<Option<bytes>>): seq<bytes> {
    seq(|row|, j requires 0 <= j < |row| => Field(row[j]))
  }

  lemma FieldsParts(row: seq<Option<bytes>>)
    requires row != []
    ensures Fields(row) == if |row| == 1 then [Field(row[0])] else [Field(row[0])] + Fields(row[1..])
  {
    hide Field;
  }

  lemma Regroup(a: bytes, b: bytes, c: bytes, d: bytes)
    ensures a + (b + c) + d == a + (b + (c + d))
  {
  }

  lemma JoinedNothing()
    ensures Joined([]) == []
  {
  }

  lemma JoinedParts(row: seq<Option<bytes>>)
    requires row != []
    ensures Joined(row) == if |row| == 1 then Field(row[0]) else Field(row[0]) + ([TAB] + Joined(row[1..]))
  {
  }

  lemma SplitNowhere(s: bytes, delimiter: byte)
    requires Find(s + [], delimiter) == |s| + Find([], delimiter)
    ensures Split(s, delimiter) == [s]
  {
    assert s + [] == s;
  }

  lemma SplitStep(head: bytes, tail: bytes, delimiter: byte)
    requires Find(head + ([delimiter] + tail), delimiter) == |head| + Find([delimiter] + tail, delimiter)
    ensures Split(head + ([delimiter] + tail), delimiter) == [head] + Split(tail, delimiter)
  {
    var s := head + ([delimiter] + tail);
    assert s[..|head|] == head;
    assert s[|head| + 1..] == tail;
  }

  lemma LineReads(row: seq<Option<bytes>>)
    requires row != []
    ensures DecodeLine(Joined(row)) == row
    ensures !HasRawCR(Joined(row)) && Joined(row) != END_MARK
  {
    JoinedSplits(row);
    forall j | 0 <= j < |row| ensures DecodeField(Field(row[j])) == row[j] {
      FieldReads(row[j], [], TAB);
    }
    JoinedReads(row, []);
    assert Joined(row) + [] == Joined(row);
    if Joined(row) == END_MARK {
      assert Split(END_MARK, TAB) == [END_MARK] by {
        assert END_MARK[2..] == [];
      }
      if row[0].Some? {
        NeverAMark(row[0].value);
      }
      assert false;
    }
  }

  /** Decoding inverts encoding, for any rows that have a column. */
  lemma {:induction false} DecodeInvertsLines(rows: Rows)
    requires forall i :: 0 <= i < |rows| ==> rows[i] != []
    ensures Decode(Lines(rows)) == Some(rows)
  {
    hide HasRawCR, Joined, DecodeLine;
    if rows != [] {
      var row, more := rows[0], Lines(rows[1..]);
      var line, s := Joined(row), Lines(rows);
      assert s == line + ([NEWLINE] + more);
      JoinedReads(row, [NEWLINE] + more);
      assert s[..|line|] == line;
      assert s[|line| + 1..] == more;
      LineReads(row);
      DecodeInvertsLines(rows[1..]);
      assert [row] + rows[1..] == rows;
    }
  }

  // ----- The round trip of a data frame -----

  function Chars(s: bytes): string {
    seq(|s|, k requires 0 <= k < |s| => s[k] as char)
  }

  /** What a column of the server makes of a field; `None` where it does not take it. */
  function BooleanIn(text: bytes): Option<bool> {
    if text == [116, 114, 117, 101] then Some(true)  // true
    else if text == [102, 97, 108, 115, 101] then Some(false)  // false
    else None
  }

  function IntegerIn(text: bytes): int {
    Atoi(Chars(text))
  }

  /** The special values by name; the text of any other number stands for itself. */
  function DoubleIn(text: bytes): RealCell {
    if text == [78, 97, 78] then RealCell.NotANumber  // NaN
    else if text == [73, 110, 102, 105, 110, 105, 116, 121] then RealCell.Infinite(false)  // Infinity
    else if text == [45, 73, 110, 102, 105, 110, 105, 116, 121] then RealCell.Infinite(true)  // -Infinity
    else Finite(text)
  }

  /** A value of a column, as R knows it, and a field, as the server read it, are the same. */
  predicate SameCell(x: RColumn, i: nat, text: Option<bytes>)
    requires i < Length(x)
  {
    match x
    case Logicals(flags) =>
      if flags[i] == 1 then text.Some? && BooleanIn(text.value) == Some(true)
      else if flags[i] == 0 then text.Some? && BooleanIn(text.value) == Some(false)
      else text == None
    case Integers(ints) =>
      if ints[i] == -2147483648 then text == None else text.Some? && IntegerIn(text.value) == ints[i]
    case Reals(reals) =>
      if reals[i] == RealCell.NaReal then text == None else text.Some? && DoubleIn(text.value) == reals[i]
    case Strings(strs) => text == strs[i]
    case Unsupported(_) => false
  }

  /** Text that snprintf makes of a finite double is not the name of a special value. */
  predicate FiniteTexts(x: RColumn) {
    x.Reals? ==> forall i :: 0 <= i < |x.reals| && x.reals[i].Finite? ==> DoubleIn(x.reals[i].text) == x.reals[i]
  }

  lemma CellTextReadsBack(x: RColumn, i: nat)
    requires i < Length(x) && !x.Unsupported? && FiniteTexts(x)
    ensures SameCell(x, i, CellText(x, i))
  {
    hide Atoi, Decimal, Chars, Ascii;
    if x.Integers? && x.ints[i] != NA_INTEGER {
      AtoiOfDecimal(x.ints[i]);
      DecimalIsAscii(x.ints[i]);
    }
  }

  lemma DecimalIsAscii(n: int)
    ensures Chars(Ascii(Decimal(n))) == Decimal(n)
  {
    hide DigitsOf, Text;
    var ds := DigitsOf(if n < 0 then -n else n);
    NumberOfText(ds);
    assert forall k :: 0 <= k < |Decimal(n)| ==> Decimal(n)[k] == '-' || IsDigit(Decimal(n)[k]);
  }

  predicate HasLength(x: RColumn, n: nat) {
    match x
    case Logicals(flags) => |flags| == n
    case Integers(ints) => |ints| == n
    case Reals(reals) => |reals| == n
    case Strings(strs) => |strs| == n
    case Unsupported(length) => length == n
  }

  /** The server reads exactly the cells of the data frame, missing values included. */
  lemma FrameRoundTrip(df: seq<RColumn>)
    requires df != [] && Rectangle(df) && Supported(df)
    ensures var rows := Decode(Lines(AllRowTexts(df)));
      && rows == Some(AllRowTexts(df))
      && |rows.value| == Length(df[0])
      && (forall j :: 0 <= j < |df| ==> HasLength(df[j], |rows.value|))
      && forall i, j :: 0 <= i < Length(df[0]) && 0 <= j < |df| && FiniteTexts(df[j]) ==>
           |rows.value[i]| == |df| && SameCell(df[j], i, rows.value[i][j])
  {
    DecodeInvertsLines(AllRowTexts(df));
    forall i, j | 0 <= i < Length(df[0]) && 0 <= j < |df| && FiniteTexts(df[j])
      ensures SameCell(df[j], i, AllRowTexts(df)[i][j])
    {
      CellTextReadsBack(df[j], i);
    }
  }

  /** No cell puts a bare tab, newline or carriage return on the wire. */
  lemma {:induction false} NoRawDelimiters(s: bytes)
    ensures forall k :: 0 <= k < |Escape(s)| ==> Escape(s)[k] !in {TAB, NEWLINE, CR}
  {
    if s != [] {
      NoRawDelimiters(s[1..]);
    }
  }
}
