/** Blobs on their way through COPY: rendered as hex text (R/tables.R:65-80), encoded, and read by the server. */
module Blob {
  import opened Base
  import opened DataTypes
  import opened CopyEncode
  import opened CopyDecode

  /** `format` of a raw byte: two lower-case hex digits. */
  function HexDigit(v: int): (b: byte)
    requires 0 <= v < 16
    ensures IsHex(b) && HexValue(b) == v && !(65 <= b <= 90)
  {
    if v < 10 then (48 + v) as byte else (87 + v) as byte
  }

  function HexText(raw: bytes): bytes {
    if raw == [] then []
    else [HexDigit(raw[0] as int / 16), HexDigit(raw[0] as int % 16)] + HexText(raw[1..])
  }

  const HEX_PREFIX: bytes := [BACKSLASH, 120]

  /** `sql_data_copy` on one element of a blob column. */
  function BlobText(raw: Option<bytes>): Option<bytes> {
    if raw == None then None else Some(HEX_PREFIX + HexText(raw.value))
  }

  function BlobColumn(blobs: seq<Option<bytes>>): RColumn {
    Strings(seq(|blobs|, i requires 0 <= i < |blobs| => BlobText(blobs[i])))
  }

  function HexPairs(s: bytes): Option<bytes>
    decreases |s|
  {
    if s == [] then Some([])
    else if |s| == 1 || !IsHex(s[0]) || !IsHex(s[1]) then None
    else
      var more := HexPairs(s[2..]);
      if more == None then None
      else Some([(HexValue(s[0]) * 16 + HexValue(s[1])) as byte] + more.value)
  }

  /** The server's bytea input in hex format, section 8.4.1 of the PostgreSQL manual. */
  function ByteaIn(text: bytes): Option<bytes> {
    if |text| >= 2 && text[..2] == [92, 120] then HexPairs(text[2..]) else None
  }

  lemma {:induction false} HexReads(raw: bytes)
    ensures HexPairs(HexText(raw)) == Some(raw)
  {
    if raw != [] {
      HexReads(raw[1..]);
      var s := HexText(raw);
      assert s[2..] == HexText(raw[1..]);
      assert raw == [raw[0]] + raw[1..];
    }
  }

  lemma ByteaReads(raw: bytes)
    ensures ByteaIn(HEX_PREFIX + HexText(raw)) == Some(raw)
  {
    HexReads(raw);
    assert (HEX_PREFIX + HexText(raw))[2..] == HexText(raw);
  }

  /** On the wire the backslash is doubled, so the x after it never starts a hex escape of COPY. */
  lemma PrefixIsDoubled(raw: bytes)
    ensures [92, 92, 120] <= Escape(HEX_PREFIX + HexText(raw))
  {
    var s := HEX_PREFIX + HexText(raw);
    assert s[1..][0] == 120;
    assert Escape(s) == [BACKSLASH, BACKSLASH] + Escape(s[1..]);
    assert Escape(s[1..]) == [120] + Escape(s[1..][1..]);
  }

  /** The whole pipeline returns the bytes of every blob, and NULL for NULL. */
  lemma BlobRoundTrip(df: seq<RColumn>, j: nat, blobs: seq<Option<bytes>>)
    requires df != [] && Rectangle(df) && Supported(df) && j < |df| && df[j] == BlobColumn(blobs)
    ensures var rows := Decode(Lines(AllRowTexts(df)));
      && rows.Some? && |rows.value| == |blobs|
      && (forall i :: 0 <= i < |blobs| ==> |rows.value[i]| == |df|)
      && (forall i :: 0 <= i < |blobs| ==>
            if blobs[i] == None then rows.value[i][j] == None
            else rows.value[i][j].Some? && ByteaIn(rows.value[i][j].value) == blobs[i])
  {
    FrameRoundTrip(df);
    forall i | 0 <= i < |blobs|
      ensures AllRowTexts(df)[i][j] == BlobText(blobs[i])
      ensures blobs[i].Some? ==> ByteaIn(BlobText(blobs[i]).value) == blobs[i]
    {
      if blobs[i].Some? {
        ByteaReads(blobs[i].value);
      }
    }
  }
}
