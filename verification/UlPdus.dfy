/** UL_TTI PDUs (SCF 222, section 3.4.3): PUSCH and PUCCH in full, PRACH and SRS as fixed-size records. */
module UlPdus {
  import opened Wire
  import opened Bits
  import opened PduFrame

  const PRACH: U16 := 0
  const PUSCH: U16 := 1
  const PUCCH: U16 := 2
  const SRS: U16 := 3

  /** The RX beamforming trailer, always empty. */
  const BEAM_FIELDS: seq<Field> := [F16(0), F16(0), F8(0)]

  // ================================================================ PUSCH

  datatype TransformPrecoding = Enabled(dmrsIdentity: U16) | Disabled(cdmGroupsNoData: Byte)

  datatype PuschData = PuschData(rv: Byte, harqId: Byte, newData: bool, tbSize: U32)

  datatype PuschUci = PuschUci(harqBits: U16, csi1Bits: U16, alpha: Byte, betaHarq: Byte, betaCsi1: Byte, betaCsi2: Byte)

  datatype Pusch = Pusch(
    rnti: U16, handle: U32, bwp: Bwp, rateTenths: U16, qam: Byte, mcsIndex: Byte, mcsTable: Byte, precoding: TransformPrecoding,
    nid: U16, layers: Byte, dmrsSymbols: U16, dmrsType: Byte, dmrsScrambling: U16, nscid: Byte, dmrsPorts: U16,
    rbStart: U16, rbSize: U16, txDirectCurrent: U16, symStart: Byte, symLength: Byte,
    data: Option<PuschData>, uci: Option<PuschUci>)

  function PuschBitmap(p: Pusch): U16
  {
    (if p.data.Some? then 1 else 0) + (if p.uci.Some? then 2 else 0) + (if p.precoding.Enabled? then 8 else 0)
  }

  function PuschHead(p: Pusch): seq<Field>
  {
    [F16(PuschBitmap(p)), F16(p.rnti), F32(p.handle), F16(p.bwp.size), F16(p.bwp.start), F8(p.bwp.scs), F8(Flag(p.bwp.extendedPrefix)),
     F16(p.rateTenths), F8(p.qam), F8(p.mcsIndex), F8(p.mcsTable), F8(if p.precoding.Enabled? then 0 else 1)]
  }

  function Identity(t: TransformPrecoding): U16
  {
    if t.Enabled? then t.dmrsIdentity else 0
  }

  function PuschReference(p: Pusch): seq<Field>
  {
    [F16(p.nid), F8(p.layers), F16(p.dmrsSymbols), F8(p.dmrsType), F16(p.dmrsScrambling), F16(Identity(p.precoding)), F8(p.nscid),
     F8(if p.precoding.Disabled? then p.precoding.cdmGroupsNoData else 0), F16(p.dmrsPorts)]
  }

  function PuschAllocation(p: Pusch): seq<Field>
  {
    [F8(1), Raw(Zeros(36)), F16(p.rbStart), F16(p.rbSize), F8(0), F8(0), F16(p.txDirectCurrent), F8(0), F8(p.symStart), F8(p.symLength)]
  }

  function DataFields(d: PuschData): seq<Field>
  {
    [F8(d.rv), F8(d.harqId), F8(Flag(d.newData)), F32(d.tbSize), F16(0)]
  }

  function UciFields(u: PuschUci): seq<Field>
  {
    [F16(u.harqBits), F16(u.csi1Bits), F16(0), F8(u.alpha), F8(u.betaHarq), F8(u.betaCsi1), F8(u.betaCsi2)]
  }

  function DftFields(identity: U16): seq<Field>
  {
    [F8(0), F16(identity), F8(0), F8(0)]
  }

  function DataBytes(p: Pusch): seq<Byte>
  {
    if p.data.Some? then Encode(DataFields(p.data.value)) else []
  }

  function UciBytes(p: Pusch): seq<Byte>
  {
    if p.uci.Some? then Encode(UciFields(p.uci.value)) else []
  }

  function DftBytes(p: Pusch): seq<Byte>
  {
    if p.precoding.Enabled? then Encode(DftFields(p.precoding.dmrsIdentity)) else []
  }

  function PuschFixed(p: Pusch): seq<Byte>
  {
    Encode(PuschHead(p)) + Encode(PuschReference(p)) + Encode(PuschAllocation(p))
  }

  function PuschTail(p: Pusch): seq<Byte>
  {
    DataBytes(p) + UciBytes(p) + DftBytes(p) + Encode(BEAM_FIELDS)
  }

  function PuschBody(p: Pusch): seq<Byte>
  {
    PuschFixed(p) + PuschTail(p)
  }

  lemma PuschHeadShapes(p: Pusch)
    ensures Shapes(PuschHead(p)) == [S16, S16, S32, S16, S16, S8, S8, S16, S8, S8, S8, S8]
  {
  }

  lemma PuschHeadTotal()
    ensures TotalWidth([S16, S16, S32, S16, S16, S8, S8, S16, S8, S8, S8, S8]) == 20
  {
    assert TotalWidth([S8, S8, S8, S8]) == 4;
    assert TotalWidth([S8, S8, S16, S8, S8, S8, S8]) == 8;
  }

  lemma PuschHeadWidth(p: Pusch)
    ensures Shapes(PuschHead(p)) == [S16, S16, S32, S16, S16, S8, S8, S16, S8, S8, S8, S8] && |Encode(PuschHead(p))| == 20
  {
    hide Encode, PuschHead;
    EncodeWidth(PuschHead(p));
    PuschHeadShapes(p);
    PuschHeadTotal();
  }

  lemma PuschReferenceShapes(p: Pusch)
    ensures Shapes(PuschReference(p)) == [S16, S8, S16, S8, S16, S16, S8, S8, S16]
  {
  }

  lemma PuschReferenceWidth(p: Pusch)
    ensures Shapes(PuschReference(p)) == [S16, S8, S16, S8, S16, S16, S8, S8, S16] && |Encode(PuschReference(p))| == 14
  {
    hide Encode, PuschReference;
    EncodeWidth(PuschReference(p));
    PuschReferenceShapes(p);
    assert TotalWidth([S16, S8, S8, S16]) == 6;
    assert TotalWidth([S16, S8, S16, S8, S16, S16, S8, S8, S16]) == 14;
  }

  lemma PuschAllocationShapes(p: Pusch)
    ensures Shapes(PuschAllocation(p)) == [S8, SRaw(36), S16, S16, S8, S8, S16, S8, S8, S8]
  {
  }

  lemma PuschAllocationWidth(p: Pusch)
    ensures Shapes(PuschAllocation(p)) == [S8, SRaw(36), S16, S16, S8, S8, S16, S8, S8, S8] && |Encode(PuschAllocation(p))| == 48
  {
    hide Encode, PuschAllocation;
    EncodeWidth(PuschAllocation(p));
    PuschAllocationShapes(p);
    assert TotalWidth([S8, S8, S8]) == 3;
    assert TotalWidth([S8, S8, S16, S8, S8, S8]) == 7;
    assert TotalWidth([S16, S16, S8, S8, S16, S8, S8, S8]) == 11;
    assert TotalWidth([S8, SRaw(36), S16, S16, S8, S8, S16, S8, S8, S8]) == 48;
  }

  lemma BeamShapes()
    ensures Shapes(BEAM_FIELDS) == [S16, S16, S8]
  {
  }

  lemma BeamWidth()
    ensures |Encode(BEAM_FIELDS)| == 5 && Shapes(BEAM_FIELDS) == [S16, S16, S8]
  {
    hide Encode, BEAM_FIELDS;
    EncodeWidth(BEAM_FIELDS);
    BeamShapes();
    assert TotalWidth([S16, S16, S8]) == 5;
  }

  lemma DataShapes(d: PuschData)
    ensures Shapes(DataFields(d)) == [S8, S8, S8, S32, S16]
  {
  }

  lemma DataWidth(d: PuschData)
    ensures |Encode(DataFields(d))| == 9 && Shapes(DataFields(d)) == [S8, S8, S8, S32, S16]
  {
    hide Encode, DataFields;
    EncodeWidth(DataFields(d));
    DataShapes(d);
    assert TotalWidth([S8, S8, S8, S32, S16]) == 9;
  }

  lemma UciShapes(u: PuschUci)
    ensures Shapes(UciFields(u)) == [S16, S16, S16, S8, S8, S8, S8]
  {
  }

  lemma UciWidth(u: PuschUci)
    ensures |Encode(UciFields(u))| == 10 && Shapes(UciFields(u)) == [S16, S16, S16, S8, S8, S8, S8]
  {
    hide Encode, UciFields;
    EncodeWidth(UciFields(u));
    UciShapes(u);
    assert TotalWidth([S16, S16, S16, S8, S8, S8, S8]) == 10;
  }

  lemma DftShapes(identity: U16)
    ensures Shapes(DftFields(identity)) == [S8, S16, S8, S8]
  {
  }

  lemma DftWidth(identity: U16)
    ensures |Encode(DftFields(identity))| == 5 && Shapes(DftFields(identity)) == [S8, S16, S8, S8]
  {
    hide Encode, DftFields;
    EncodeWidth(DftFields(identity));
    DftShapes(identity);
    assert TotalWidth([S8, S16, S8, S8]) == 5;
  }

  lemma PuschTailWidths(p: Pusch)
    ensures |DataBytes(p)| == if p.data.Some? then 9 else 0
    ensures |UciBytes(p)| == if p.uci.Some? then 10 else 0
    ensures |DftBytes(p)| == if p.precoding.Enabled? then 5 else 0
  {
    hide Encode, DataFields, UciFields, DftFields;
    if p.data.Some? {
      DataWidth(p.data.value);
    }
    if p.uci.Some? {
      UciWidth(p.uci.value);
    }
    if p.precoding.Enabled? {
      DftWidth(p.precoding.dmrsIdentity);
    }
  }

  /** The declared size of a PUSCH PDU. */
  lemma PuschSize(p: Pusch)
    ensures |PuschBody(p)| + FRAME ==
            91 + (if p.data.Some? then 9 else 0) + (if p.uci.Some? then 10 else 0) + (if p.precoding.Enabled? then 5 else 0)
  {
    PuschHeadWidth(p);
    PuschReferenceWidth(p);
    PuschAllocationWidth(p);
    PuschTailWidths(p);
    BeamWidth();
  }

  /** serialize_pusch_pdu. */
  method SerializePusch(p: Pusch, buf: array<Byte>, pos: nat) returns (size: nat)
    requires pos + FRAME + |PuschBody(p)| <= buf.Length
    modifies buf
    ensures |PuschBody(p)| + FRAME == size < 0x1_0000
    ensures buf[..] == Overwrite(old(buf[..]), pos, PduBytes(PUSCH, PuschBody(p)))
  {
    hide PuschFixed, PuschTail;
    PuschSize(p);
    ghost var base := buf[..];
    var next := Begin(buf, pos, PUSCH);
    ghost var b1 := buf[..];
    next := PutPuschFixed(p, buf, next);
    next := PutPuschTail(p, buf, next);
    OverwriteMeets(b1, pos + FRAME, PuschFixed(p), PuschTail(p));
    size := Finish(buf, pos, next, PUSCH, base, PuschBody(p));
  }

  /** The optional blocks, each behind its presence test, and the beamforming trailer. */
  method PutPuschTail(p: Pusch, buf: array<Byte>, start: nat) returns (next: nat)
    requires start + |PuschTail(p)| <= buf.Length
    modifies buf
    ensures next == start + |PuschTail(p)| && buf[..] == Overwrite(old(buf[..]), start, PuschTail(p))
  {
    hide Encode, DataFields, UciFields, DftFields, BEAM_FIELDS;
    ghost var base, acc: seq<Byte> := buf[..], [];
    next := start;
    assert base == Overwrite(base, start, []);
    if p.data.Some? {
      next, acc := Append(buf, next, DataFields(p.data.value), base, start, acc);
    }
    assert acc == DataBytes(p);
    if p.uci.Some? {
      next, acc := Append(buf, next, UciFields(p.uci.value), base, start, acc);
    }
    assert acc == DataBytes(p) + UciBytes(p);
    if p.precoding.Enabled? {
      next, acc := Append(buf, next, DftFields(p.precoding.dmrsIdentity), base, start, acc);
    }
    assert acc == DataBytes(p) + UciBytes(p) + DftBytes(p);
    next, acc := Append(buf, next, BEAM_FIELDS, base, start, acc);
  }

  /** The part of the PDU that is always there. */
  method PutPuschFixed(p: Pusch, buf: array<Byte>, start: nat) returns (next: nat)
    requires start + |PuschFixed(p)| <= buf.Length
    modifies buf
    ensures next == start + |PuschFixed(p)| && buf[..] == Overwrite(old(buf[..]), start, PuschFixed(p))
  {
    hide Encode, PuschHead, PuschReference, PuschAllocation;
    ghost var base, acc := buf[..], Encode(PuschHead(p));
    next := PutFields(buf, start, PuschHead(p));
    next, acc := Append(buf, next, PuschReference(p), base, start, acc);
    next, acc := Append(buf, next, PuschAllocation(p), base, start, acc);
  }

  // ---------------------------------------------------------------- reading a PUSCH PDU back

  function ReadData(present: bool, s: seq<Byte>): Option<Read<Option<PuschData>>>
  {
    if !present then Some(Read(None, s))
    else
      var d :- Decode([S8, S8, S8, S32, S16], s);
      var newData :- ReadFlag(As8(d.fields[2]));
      if !Blank(d.fields[4]) then None
      else Some(Read(Some(PuschData(As8(d.fields[0]), As8(d.fields[1]), newData, As32(d.fields[3]))), d.rest))
  }

  function ReadUci(present: bool, s: seq<Byte>): Option<Read<Option<PuschUci>>>
  {
    if !present then Some(Read(None, s))
    else
      var d :- Decode([S16, S16, S16, S8, S8, S8, S8], s);
      var f := d.fields;
      if !Blank(f[2]) then None
      else Some(Read(Some(PuschUci(As16(f[0]), As16(f[1]), As8(f[3]), As8(f[4]), As8(f[5]), As8(f[6]))), d.rest))
  }

  /** The low-PAPR sequence number of the DFT block. */
  function ReadDft(present: bool, s: seq<Byte>): Option<Read<Option<U16>>>
  {
    if !present then Some(Read(None, s))
    else
      var d :- Decode([S8, S16, S8, S8], s);
      var f := d.fields;
      if !(Blank(f[0]) && Blank(f[2]) && Blank(f[3])) then None else Some(Read(Some(As16(f[1])), d.rest))
  }

  /** Precoding is enabled (0) when there is a DFT block, which then repeats the identity, and disabled (1) otherwise;
      either leaves the field of the other blank. */
  function ReadPrecoding(disabled: bool, identity: U16, cdmGroups: Byte, dft: Option<U16>): Option<TransformPrecoding>
  {
    if !disabled && dft == Some(identity) && cdmGroups == 0 then Some(Enabled(identity))
    else if disabled && dft == None && identity == 0 then Some(Disabled(cdmGroups))
    else None
  }

  /** Reads a PUSCH configuration from its bytes alone: the bitmap says which blocks follow, the transform-precoding
      byte which reference-signal fields count. Bytes with one meaning only must have it: resource allocation type 1, and
      blank RB bitmap, mapping, hopping, frequency shift and beamforming. */
  function ReadPusch(s: seq<Byte>): Option<Read<Pusch>>
  {
    var a :- Decode([S16, S16, S32, S16, S16, S8, S8, S16, S8, S8, S8, S8], s);
    var b :- Decode([S16, S8, S16, S8, S16, S16, S8, S8, S16], a.rest);
    var c :- Decode([S8, SRaw(36), S16, S16, S8, S8, S16, S8, S8, S8], b.rest);
    var bitmap := As16(a.fields[0]);
    var data :- ReadData(Bit(bitmap, 0), c.rest);
    var uci :- ReadUci(Bit(bitmap, 1), data.rest);
    var dft :- ReadDft(Bit(bitmap, 3), uci.rest);
    var e :- Decode([S16, S16, S8], dft.rest);
    if bitmap >= 16 || Bit(bitmap, 2) || !AllBlank(e.fields) then None
    else
      var pdu :- PuschFrom(a.fields, b.fields, c.fields, data.pdu, uci.pdu, dft.pdu);
      Some(Read(pdu, e.rest))
  }

  function PuschFrom(a: seq<Field>, b: seq<Field>, c: seq<Field>, data: Option<PuschData>, uci: Option<PuschUci>, dft: Option<U16>): Option<Pusch>
    requires |a| == 12 && |b| == 9 && |c| == 10
  {
    var bwp :- ReadBwp(a, 3);
    var disabled :- ReadFlag(As8(a[11]));
    var precoding :- ReadPrecoding(disabled, As16(b[5]), As8(b[7]), dft);
    if !(c[0] == F8(1) && Blank(c[1]) && Blank(c[4]) && Blank(c[5]) && Blank(c[7])) then None
    else Some(Pusch(As16(a[1]), As32(a[2]), bwp, As16(a[7]), As8(a[8]), As8(a[9]), As8(a[10]), precoding,
                    As16(b[0]), As8(b[1]), As16(b[2]), As8(b[3]), As16(b[4]), As8(b[6]), As16(b[8]),
                    As16(c[2]), As16(c[3]), As16(c[6]), As8(c[8]), As8(c[9]), data, uci))
  }

  lemma BitmapBits(p: Pusch)
    ensures Bit(PuschBitmap(p), 0) == p.data.Some? && Bit(PuschBitmap(p), 1) == p.uci.Some?
    ensures !Bit(PuschBitmap(p), 2) && Bit(PuschBitmap(p), 3) == p.precoding.Enabled? && PuschBitmap(p) < 16
  {
    var b := PuschBitmap(p);
    assert Bit(b, 1) == Bit(b / 2, 0) && Bit(b, 2) == Bit(b / 4, 0) && Bit(b, 3) == Bit(b / 8, 0) by {
      assert b / 2 / 2 == b / 4 && b / 4 / 2 == b / 8;
      assert Bit(b / 2, 1) == Bit(b / 4, 0) && Bit(b / 2, 2) == Bit(b / 4, 1) == Bit(b / 8, 0);
    }
  }

  function DftOf(t: TransformPrecoding): Option<U16>
  {
    match t
    case Enabled(identity) => Some(identity)
    case Disabled(_) => None
  }

  lemma PuschFromFields(p: Pusch)
    ensures PuschFrom(PuschHead(p), PuschReference(p), PuschAllocation(p), p.data, p.uci, DftOf(p.precoding)) == Some(p)
  {
  }

  lemma TailsBack(p: Pusch, post: seq<Byte>)
    ensures ReadData(p.data.Some?, DataBytes(p) + post) == Some(Read(p.data, post))
    ensures ReadUci(p.uci.Some?, UciBytes(p) + post) == Some(Read(p.uci, post))
    ensures ReadDft(p.precoding.Enabled?, DftBytes(p) + post) == Some(Read(DftOf(p.precoding), post))
  {
    hide Encode, Decode;
    assert [] + post == post;
    if p.data.Some? {
      DataWidth(p.data.value);
      EncodeDecode(DataFields(p.data.value), post);
    }
    if p.uci.Some? {
      UciWidth(p.uci.value);
      EncodeDecode(UciFields(p.uci.value), post);
    }
    if p.precoding.Enabled? {
      DftWidth(p.precoding.dmrsIdentity);
      EncodeDecode(DftFields(p.precoding.dmrsIdentity), post);
    }
  }

  /** Every carried field of a PUSCH PDU is recovered from its bytes, and exactly its bytes are consumed. */
  lemma PuschBack(p: Pusch, post: seq<Byte>)
    ensures ReadPusch(PuschBody(p) + post) == Some(Read(p, post))
  {
    hide Encode, Decode, PuschHead, PuschReference, PuschAllocation, PuschFrom, BEAM_FIELDS;
    hide ReadData, ReadUci, ReadDft, DataBytes, UciBytes, DftBytes;
    var s7 := Encode(BEAM_FIELDS) + post;
    var s6 := DftBytes(p) + s7;
    var s5 := UciBytes(p) + s6;
    var s4 := DataBytes(p) + s5;
    var s3 := Encode(PuschAllocation(p)) + s4;
    var s2 := Encode(PuschReference(p)) + s3;
    PuschConcat(p, post);
    EncodeDecode(PuschHead(p), s2);
    PuschHeadWidth(p);
    EncodeDecode(PuschReference(p), s3);
    PuschReferenceWidth(p);
    EncodeDecode(PuschAllocation(p), s4);
    PuschAllocationWidth(p);
    HeadBitmap(p);
    BitmapBits(p);
    TailsBack(p, s5);
    TailsBack(p, s6);
    TailsBack(p, s7);
    BeamWidth();
    EncodeDecode(BEAM_FIELDS, post);
    BeamBlank();
    PuschFromFields(p);
  }

  lemma BeamBlank()
    ensures AllBlank(BEAM_FIELDS)
  {
  }

  lemma HeadBitmap(p: Pusch)
    ensures As16(PuschHead(p)[0]) == PuschBitmap(p)
  {
  }

  lemma {:induction false} PuschConcat(p: Pusch, post: seq<Byte>)
    ensures PuschBody(p) + post ==
            Encode(PuschHead(p)) + (Encode(PuschReference(p)) + (Encode(PuschAllocation(p))
            + (DataBytes(p) + (UciBytes(p) + (DftBytes(p) + (Encode(BEAM_FIELDS) + post))))))
  {
    hide Encode, PuschHead, PuschReference, PuschAllocation, DataBytes, UciBytes, DftBytes, BEAM_FIELDS;
    Concat7(Encode(PuschHead(p)), Encode(PuschReference(p)), Encode(PuschAllocation(p)), DataBytes(p), UciBytes(p), DftBytes(p),
            Encode(BEAM_FIELDS), post);
  }

  lemma Concat7(a: seq<Byte>, b: seq<Byte>, c: seq<Byte>, d: seq<Byte>, e: seq<Byte>, f: seq<Byte>, g: seq<Byte>, post: seq<Byte>)
    ensures (a + b + c) + (d + e + f + g) + post == a + (b + (c + (d + (e + (f + (g + post))))))
  {
    Regroup4(d, e, f, g, post);
    Regroup(a + b + c, d + e + f + g, post);
    Regroup(a + b, c, d + e + f + g + post);
    Regroup(a, b, c + (d + e + f + g + post));
  }

  /** The DFT block is there exactly when bitmap bit 3 is set, which is exactly when the precoding byte is zero. */
  lemma DftBlockPresence(p: Pusch, post: seq<Byte>)
    ensures var a := Decode([S16, S16, S32, S16, S16, S8, S8, S16, S8, S8, S8, S8], PuschBody(p) + post);
            && a.Some? && Bit(As16(a.value.fields[0]), 3) == (DftBytes(p) != [])
            && Bit(As16(a.value.fields[0]), 3) == (As8(a.value.fields[11]) == 0)
  {
    hide Encode, Decode, PuschReference, PuschAllocation, DataBytes, UciBytes, BEAM_FIELDS, DftFields;
    PuschConcat(p, post);
    PuschHeadWidth(p);
    PuschTailWidths(p);
    BitmapBits(p);
    EncodeDecode(PuschHead(p), Encode(PuschReference(p)) + (Encode(PuschAllocation(p))
                                                            + (DataBytes(p) + (UciBytes(p) + (DftBytes(p) + (Encode(BEAM_FIELDS) + post))))));
  }
}
