/** The two headers in front of every FAPI message (`write_headers`). */
module Envelope {
  import opened Wire

  const HEADERS: nat := 8

  const DL_TTI_REQUEST: U16 := 0x80
  const UL_TTI_REQUEST: U16 := 0x81
  const UL_DCI_REQUEST: U16 := 0x83
  const TX_DATA_REQUEST: U16 := 0x84

  function HeaderFields(cellId: Byte, typeId: U16, bodyLen: U32): seq<Field>
  {
    [F8(1), F8(cellId), F16(typeId), F32(bodyLen)]
  }

  function HeaderBytes(cellId: Byte, typeId: U16, bodyLen: U32): (b: seq<Byte>)
    ensures |b| == HEADERS
  {
    [1, cellId] + Le16(typeId) + Le32(bodyLen)
  }

  lemma HeaderEncoding(cellId: Byte, typeId: U16, bodyLen: U32)
    ensures Encode(HeaderFields(cellId, typeId, bodyLen)) == HeaderBytes(cellId, typeId, bodyLen)
  {
    var f := HeaderFields(cellId, typeId, bodyLen);
    assert f[1..] == [f[1], f[2], f[3]] && f[1..][1..] == [f[2], f[3]] && f[1..][1..][1..] == [f[3]];
    assert Encode([f[3]]) == Le32(bodyLen) + Encode([]);
    assert Encode([f[2], f[3]]) == Le16(typeId) + Encode([f[3]]) by { assert [f[2], f[3]][1..] == [f[3]]; }
  }

  /** Headers are written last, in front of a body already in place. */
  method WriteHeaders(buf: array<Byte>, cellId: Byte, typeId: U16, bodyLen: U32, ghost base: seq<Byte>, ghost body: seq<Byte>)
    requires HEADERS + |body| <= buf.Length == |base|
    requires buf[..] == Overwrite(base, HEADERS, body)
    modifies buf
    ensures buf[..] == Overwrite(base, 0, HeaderBytes(cellId, typeId, bodyLen) + body)
  {
    HeaderEncoding(cellId, typeId, bodyLen);
    var next := PutFields(buf, 0, HeaderFields(cellId, typeId, bodyLen));
    OverwriteBefore(base, 0, HeaderBytes(cellId, typeId, bodyLen), body);
  }

  /** Both headers read back: one message, its handle, its type and the length of its body. */
  lemma LengthBack(cellId: Byte, typeId: U16, bodyLen: U32, body: seq<Byte>)
    ensures var s := HeaderBytes(cellId, typeId, bodyLen) + body;
            s[0] == 1 && s[1] == cellId && U16At(s, 2) == typeId && U32At(s, 4) == bodyLen && s[HEADERS..] == body
  {
    var s := HeaderBytes(cellId, typeId, bodyLen) + body;
    assert forall i :: 0 <= i < HEADERS ==> s[i] == HeaderBytes(cellId, typeId, bodyLen)[i];
    JoinWord(bodyLen);
  }
}
