/** PUCCH PDUs (SCF 222, section 3.4.3.3): five formats in one fixed layout, where each format fills its own fields
    and leaves the others zero. PRACH and SRS, which are fixed-size records, follow. */
module PucchPdus {
  import opened Wire
  import opened PduFrame
  import opened UlPdus

  datatype Format =
    | Format0(hopping: U16, cyclicShift: U16, srPresent: bool, harqBits: U16)
    | Format1(hopping: U16, cyclicShift: U16, occ: Byte, srPresent: bool, harqBits: U16)
    | Format2(scrambling: U16, dmrsScrambling: U16, srBits: Byte, harqBits: U16, csi1Bits: U16)
    | Format3(hopping: U16, scrambling: U16, pi2Bpsk: bool, addDmrs: bool, dmrsScrambling: U16, dmrsShift: Byte,
              srBits: Byte, harqBits: U16, csi1Bits: U16)
    | Format4(hopping: U16, scrambling: U16, pi2Bpsk: bool, preDftOcc: Byte, preDftOccLength: Byte, addDmrs: bool, dmrsScrambling: U16,
              dmrsShift: Byte, srBits: Byte, harqBits: U16, csi1Bits: U16)

  datatype Pucch = Pucch(rnti: U16, handle: U32, bwp: Bwp, prbStart: U16, prbSize: U16, symStart: Byte, symLength: Byte,
                         secondHop: Option<U16>, format: Format)

  /** The format-dependent part of the wire layout. */
  datatype Wired = Wired(hopping: U16, cyclicShift: U16, scrambling: U16, occ: Byte, preDftOcc: Byte, preDftOccLength: Byte, addDmrs: bool,
                         dmrsScrambling: U16, dmrsShift: Byte, sr: Byte, harqBits: U16, csi1Bits: U16)

  function FormatNumber(f: Format): Byte
  {
    match f
    case Format0(_, _, _, _) => 0
    case Format1(_, _, _, _, _) => 1
    case Format2(_, _, _, _, _) => 2
    case Format3(_, _, _, _, _, _, _, _, _) => 3
    case Format4(_, _, _, _, _, _, _, _, _, _, _) => 4
  }

  function Pi2Bpsk(f: Format): bool
  {
    (f.Format3? || f.Format4?) && f.pi2Bpsk
  }

  function Laid(f: Format): Wired
  {
    match f
    case Format0(h, c, sr, q) => Wired(h, c, 0, 0, 0, 0, false, 0, 0, Flag(sr), q, 0)
    case Format1(h, c, o, sr, q) => Wired(h, c, 0, o, 0, 0, false, 0, 0, Flag(sr), q, 0)
    case Format2(s, d, sr, q, c1) => Wired(0, 0, s, 0, 0, 0, false, d, 0, sr, q, c1)
    case Format3(h, s, _, a, d, m0, sr, q, c1) => Wired(h, 0, s, 0, 0, 0, a, d, m0, sr, q, c1)
    case Format4(h, s, _, po, pl, a, d, m0, sr, q, c1) => Wired(h, 0, s, 0, po, pl, a, d, m0, sr, q, c1)
  }

  function HeadFields(p: Pucch): seq<Field>
  {
    [F16(p.rnti), F32(p.handle), F16(p.bwp.size), F16(p.bwp.start), F8(p.bwp.scs), F8(Flag(p.bwp.extendedPrefix)),
     F8(FormatNumber(p.format)), F8(0), F8(Flag(Pi2Bpsk(p.format)))]
  }

  function AllocationFields(p: Pucch): seq<Field>
  {
    [F16(p.prbStart), F16(p.prbSize), F8(p.symStart), F8(p.symLength), F8(if p.secondHop.Some? then 1 else 0),
     F16(if p.secondHop.Some? then p.secondHop.value else 0)]
  }

  function FormatFields(w: Wired): seq<Field>
  {
    [F8(0), F8(0), F16(w.hopping), F16(w.cyclicShift), F16(w.scrambling), F8(w.occ), F8(w.preDftOcc), F8(w.preDftOccLength), F8(Flag(w.addDmrs))]
  }

  function PayloadFields(w: Wired): seq<Field>
  {
    [F16(w.dmrsScrambling), F8(w.dmrsShift), F8(w.sr), F16(w.harqBits), F16(w.csi1Bits), F16(0), F16(0), F16(0), F8(0)]
  }

  function PucchBody(p: Pucch): seq<Byte>
  {
    Encode(HeadFields(p)) + Encode(AllocationFields(p)) + Encode(FormatFields(Laid(p.format))) + Encode(PayloadFields(Laid(p.format)))
  }

  lemma HeadShapes(p: Pucch)
    ensures Shapes(HeadFields(p)) == [S16, S32, S16, S16, S8, S8, S8, S8, S8]
  {
  }

  lemma HeadWidth(p: Pucch)
    ensures |Encode(HeadFields(p))| == 15 && Shapes(HeadFields(p)) == [S16, S32, S16, S16, S8, S8, S8, S8, S8]
  {
    hide Encode, HeadFields;
    EncodeWidth(HeadFields(p));
    HeadShapes(p);
    assert TotalWidth([S8, S8, S8, S8, S8]) == 5;
    assert TotalWidth([S16, S32, S16, S16, S8, S8, S8, S8, S8]) == 15;
  }

  lemma AllocationShapes(p: Pucch)
    ensures Shapes(AllocationFields(p)) == [S16, S16, S8, S8, S8, S16]
  {
  }

  lemma AllocationWidth(p: Pucch)
    ensures |Encode(AllocationFields(p))| == 9 && Shapes(AllocationFields(p)) == [S16, S16, S8, S8, S8, S16]
  {
    hide Encode, AllocationFields;
    EncodeWidth(AllocationFields(p));
    AllocationShapes(p);
    assert TotalWidth([S16, S16, S8, S8, S8, S16]) == 9;
  }

  lemma FormatShapes(w: Wired)
    ensures Shapes(FormatFields(w)) == [S8, S8, S16, S16, S16, S8, S8, S8, S8]
  {
  }

  lemma FormatWidth(w: Wired)
    ensures |Encode(FormatFields(w))| == 12 && Shapes(FormatFields(w)) == [S8, S8, S16, S16, S16, S8, S8, S8, S8]
  {
    hide Encode, FormatFields;
    EncodeWidth(FormatFields(w));
    FormatShapes(w);
    assert TotalWidth([S16, S8, S8, S8, S8]) == 6;
    assert TotalWidth([S8, S8, S16, S16, S16, S8, S8, S8, S8]) == 12;
  }

  lemma PayloadShapes(w: Wired)
    ensures Shapes(PayloadFields(w)) == [S16, S8, S8, S16, S16, S16, S16, S16, S8]
  {
  }

  lemma PayloadWidth(w: Wired)
    ensures |Encode(PayloadFields(w))| == 15 && Shapes(PayloadFields(w)) == [S16, S8, S8, S16, S16, S16, S16, S16, S8]
  {
    hide Encode, PayloadFields;
    EncodeWidth(PayloadFields(w));
    PayloadShapes(w);
    assert TotalWidth([S16, S16, S16, S16, S8]) == 9;
    assert TotalWidth([S16, S8, S8, S16, S16, S16, S16, S16, S8]) == 15;
  }

  lemma PucchSize(p: Pucch)
    ensures |PucchBody(p)| + FRAME == 55
  {
    hide Encode, HeadFields, AllocationFields, FormatFields, PayloadFields;
    HeadWidth(p);
    AllocationWidth(p);
    FormatWidth(Laid(p.format));
    PayloadWidth(Laid(p.format));
  }

  /** serialize_pucch_pdu. */
  method SerializePucch(p: Pucch, buf: array<Byte>, pos: nat) returns (size: nat)
    requires pos + 55 <= buf.Length
    modifies buf
    ensures |PucchBody(p)| + FRAME == size == 55
    ensures buf[..] == Overwrite(old(buf[..]), pos, PduBytes(PUCCH, PucchBody(p)))
  {
    hide PucchBody;
    PucchSize(p);
    ghost var base := buf[..];
    var next := Begin(buf, pos, PUCCH);
    next := PutPucchBody(p, buf, next);
    size := Finish(buf, pos, next, PUCCH, base, PucchBody(p));
  }

  method PutPucchBody(p: Pucch, buf: array<Byte>, start: nat) returns (next: nat)
    requires start + |PucchBody(p)| <= buf.Length
    modifies buf
    ensures next == start + |PucchBody(p)| && buf[..] == Overwrite(old(buf[..]), start, PucchBody(p))
  {
    hide Encode, HeadFields, AllocationFields, FormatFields, PayloadFields, Laid;
    ghost var base, acc := buf[..], Encode(HeadFields(p));
    next := PutFields(buf, start, HeadFields(p));
    next, acc := Append(buf, next, AllocationFields(p), base, start, acc);
    var w := Laid(p.format);
    next, acc := Append(buf, next, FormatFields(w), base, start, acc);
    next, acc := Append(buf, next, PayloadFields(w), base, start, acc);
  }

  // ---------------------------------------------------------------- reading a PUCCH PDU back

  /** The format number says which fields of the shared layout to take; it must have left the others zero. */
  function FormatFrom(number: Byte, pi2: bool, w: Wired): Option<Format>
  {
    match number
    case 0 =>
      var sr :- ReadFlag(w.sr);
      if pi2 || w != Wired(w.hopping, w.cyclicShift, 0, 0, 0, 0, false, 0, 0, w.sr, w.harqBits, 0) then None
      else Some(Format0(w.hopping, w.cyclicShift, sr, w.harqBits))
    case 1 =>
      var sr :- ReadFlag(w.sr);
      if pi2 || w != Wired(w.hopping, w.cyclicShift, 0, w.occ, 0, 0, false, 0, 0, w.sr, w.harqBits, 0) then None
      else Some(Format1(w.hopping, w.cyclicShift, w.occ, sr, w.harqBits))
    case 2 =>
      if pi2 || w != Wired(0, 0, w.scrambling, 0, 0, 0, false, w.dmrsScrambling, 0, w.sr, w.harqBits, w.csi1Bits) then None
      else Some(Format2(w.scrambling, w.dmrsScrambling, w.sr, w.harqBits, w.csi1Bits))
    case 3 =>
      if w.cyclicShift != 0 || w.occ != 0 || w.preDftOcc != 0 || w.preDftOccLength != 0 then None
      else Some(Format3(w.hopping, w.scrambling, pi2, w.addDmrs, w.dmrsScrambling, w.dmrsShift, w.sr, w.harqBits, w.csi1Bits))
    case 4 =>
      if w.cyclicShift != 0 || w.occ != 0 then None
      else Some(Format4(w.hopping, w.scrambling, pi2, w.preDftOcc, w.preDftOccLength, w.addDmrs, w.dmrsScrambling,
                        w.dmrsShift, w.sr, w.harqBits, w.csi1Bits))
    case _ => None
  }

  function WiredFrom(c: seq<Field>, d: seq<Field>): Option<Wired>
    requires |c| == |d| == 9
  {
    var addDmrs :- ReadFlag(As8(c[8]));
    if !(Blank(c[0]) && Blank(c[1]) && AllBlank(d[5..])) then None
    else Some(Wired(As16(c[2]), As16(c[3]), As16(c[4]), As8(c[5]), As8(c[6]), As8(c[7]), addDmrs,
                    As16(d[0]), As8(d[1]), As8(d[2]), As16(d[3]), As16(d[4])))
  }

  /** Reads a PUCCH configuration from its bytes alone. Multi-slot, hopping flags, CSI part 2 and beamforming must be
      blank. */
  function ReadPucch(s: seq<Byte>): Option<Read<Pucch>>
  {
    var a :- Decode([S16, S32, S16, S16, S8, S8, S8, S8, S8], s);
    var b :- Decode([S16, S16, S8, S8, S8, S16], a.rest);
    var c :- Decode([S8, S8, S16, S16, S16, S8, S8, S8, S8], b.rest);
    var d :- Decode([S16, S8, S8, S16, S16, S16, S16, S16, S8], c.rest);
    var wired :- WiredFrom(c.fields, d.fields);
    var pi2 :- ReadFlag(As8(a.fields[8]));
    var format :- FormatFrom(As8(a.fields[6]), pi2, wired);
    var pdu :- PucchFrom(a.fields, b.fields, format);
    Some(Read(pdu, d.rest))
  }

  function PucchFrom(a: seq<Field>, b: seq<Field>, format: Format): Option<Pucch>
    requires |a| == 9 && |b| == 6
  {
    var bwp :- ReadBwp(a, 2);
    var hops :- ReadFlag(As8(b[4]));
    if !Blank(a[7]) || (!hops && !Blank(b[5])) then None
    else Some(Pucch(As16(a[0]), As32(a[1]), bwp, As16(b[0]), As16(b[1]), As8(b[2]), As8(b[3]), if hops then Some(As16(b[5])) else None, format))
  }

  lemma FormatBack(f: Format)
    ensures FormatFrom(FormatNumber(f), Pi2Bpsk(f), Laid(f)) == Some(f)
  {
  }

  lemma FieldsBack(p: Pucch)
    ensures PucchFrom(HeadFields(p), AllocationFields(p), p.format) == Some(p)
    ensures As8(HeadFields(p)[6]) == FormatNumber(p.format) && As8(HeadFields(p)[8]) == Flag(Pi2Bpsk(p.format))
  {
  }

  lemma WiredBack(w: Wired)
    ensures WiredFrom(FormatFields(w), PayloadFields(w)) == Some(w)
  {
    assert PayloadFields(w)[5..] == [F16(0), F16(0), F16(0), F8(0)];
  }

  /** Every field of a PUCCH PDU, of whatever format, is recovered from its bytes. */
  lemma PucchBack(p: Pucch, post: seq<Byte>)
    ensures ReadPucch(PucchBody(p) + post) == Some(Read(p, post))
  {
    hide Encode, Decode, HeadFields, AllocationFields, FormatFields, PayloadFields, PucchFrom, WiredFrom, FormatFrom, Laid;
    var w := Laid(p.format);
    var s4 := Encode(PayloadFields(w)) + post;
    var s3 := Encode(FormatFields(w)) + s4;
    var s2 := Encode(AllocationFields(p)) + s3;
    Regroup4(Encode(HeadFields(p)), Encode(AllocationFields(p)), Encode(FormatFields(w)), Encode(PayloadFields(w)), post);
    EncodeDecode(HeadFields(p), s2);
    HeadWidth(p);
    EncodeDecode(AllocationFields(p), s3);
    AllocationWidth(p);
    EncodeDecode(FormatFields(w), s4);
    FormatWidth(w);
    EncodeDecode(PayloadFields(w), post);
    PayloadWidth(w);
    FieldsBack(p);
    WiredBack(w);
    FormatBack(p.format);
  }

  // ================================================================ PRACH and SRS

  datatype Prach = Prach(nofOccasions: Byte, format: Byte, frequencyIndex: Byte, startSymbol: Byte, nofCyclicShifts: U16)

  function PrachFields(p: Prach): seq<Field>
  {
    [F16(0), F8(p.nofOccasions), F8(p.format), F8(p.frequencyIndex), F8(p.startSymbol), F16(p.nofCyclicShifts)]
  }

  lemma PrachShapes(p: Prach)
    ensures Shapes(PrachFields(p)) == [S16, S8, S8, S8, S8, S16]
  {
  }

  lemma PrachWidth(p: Prach)
    ensures |Encode(PrachFields(p))| == 8
  {
    hide Encode, PrachFields;
    EncodeWidth(PrachFields(p));
    PrachShapes(p);
    assert TotalWidth([S16, S8, S8, S8, S8, S16]) == 8;
  }

  function ReadPrach(s: seq<Byte>): Option<Read<Prach>>
  {
    var d :- Decode([S16, S8, S8, S8, S8, S16], s);
    var f := d.fields;
    if !Blank(f[0]) then None else Some(Read(Prach(As8(f[1]), As8(f[2]), As8(f[3]), As8(f[4]), As16(f[5])), d.rest))
  }

  lemma PrachBack(p: Prach, post: seq<Byte>)
    ensures ReadPrach(Encode(PrachFields(p)) + post) == Some(Read(p, post))
  {
    hide Encode, Decode;
    EncodeDecode(PrachFields(p), post);
    PrachShapes(p);
  }

  /** The PRACH branch of serialize_ul_tti_request. */
  method SerializePrach(p: Prach, buf: array<Byte>, pos: nat) returns (size: nat)
    requires pos + 12 <= buf.Length
    modifies buf
    ensures |Encode(PrachFields(p))| + FRAME == size == 12
    ensures buf[..] == Overwrite(old(buf[..]), pos, PduBytes(PRACH, Encode(PrachFields(p))))
  {
    hide Encode, PrachFields;
    PrachWidth(p);
    ghost var base := buf[..];
    var next := Begin(buf, pos, PRACH);
    next := PutFields(buf, next, PrachFields(p));
    size := Finish(buf, pos, next, PRACH, base, Encode(PrachFields(p)));
  }

  datatype Srs = Srs(
    rnti: U16, handle: U32, bwp: Bwp, nofPorts: Byte, symStart: Byte, symLength: Byte, nofRepetitions: Byte, timeStart: Byte, configIndex: Byte,
    sequenceId: U16, bandwidthIndex: Byte, combSize: Byte, combOffset: Byte, cyclicShift: Byte, frequencyPosition: Byte, frequencyShift: U16,
    frequencyHopping: Byte, groupOrSequenceHopping: Byte, resourceType: Byte, tSrs: U16, tOffset: U16)

  function SrsFields(p: Srs): seq<Field>
  {
    [F16(p.rnti), F32(p.handle), F16(p.bwp.size), F16(p.bwp.start), F8(p.bwp.scs), F8(Flag(p.bwp.extendedPrefix)),
     F8(p.nofPorts), F8(p.symStart), F8(p.symLength), F8(p.nofRepetitions), F8(p.timeStart), F8(p.configIndex)]
  }

  function SrsResourceFields(p: Srs): seq<Field>
  {
    [F16(p.sequenceId), F8(p.bandwidthIndex), F8(p.combSize), F8(p.combOffset), F8(p.cyclicShift), F8(p.frequencyPosition),
     F16(p.frequencyShift), F8(p.frequencyHopping), F8(p.groupOrSequenceHopping), F8(p.resourceType), F16(p.tSrs), F16(p.tOffset)]
  }

  function SrsBody(p: Srs): seq<Byte>
  {
    Encode(SrsFields(p)) + Encode(SrsResourceFields(p))
  }

  lemma SrsShapes(p: Srs)
    ensures Shapes(SrsFields(p)) == [S16, S32, S16, S16, S8, S8, S8, S8, S8, S8, S8, S8]
  {
  }

  lemma SrsResourceShapes(p: Srs)
    ensures Shapes(SrsResourceFields(p)) == [S16, S8, S8, S8, S8, S8, S16, S8, S8, S8, S16, S16]
  {
  }

  lemma SrsSize(p: Srs)
    ensures |SrsBody(p)| + FRAME == 38
  {
    hide Encode, SrsFields, SrsResourceFields;
    SrsHeadWidth(p);
    SrsResourceWidth(p);
  }

  lemma SrsHeadWidth(p: Srs)
    ensures |Encode(SrsFields(p))| == 18
  {
    hide Encode, SrsFields;
    EncodeWidth(SrsFields(p));
    SrsShapes(p);
    FourWidths(Shapes(SrsFields(p)));
    FourWidths([S8, S8, S8, S8, S8, S8, S8, S8]);
    assert TotalWidth([S8, S8, S8, S8]) == 4;
  }

  lemma SrsResourceWidth(p: Srs)
    ensures |Encode(SrsResourceFields(p))| == 16
  {
    hide Encode, SrsResourceFields;
    EncodeWidth(SrsResourceFields(p));
    SrsResourceShapes(p);
    FourWidths(Shapes(SrsResourceFields(p)));
    FourWidths([S8, S8, S16, S8, S8, S8, S16, S16]);
    assert TotalWidth([S8, S8, S16, S16]) == 6;
  }

  function ReadSrs(s: seq<Byte>): Option<Read<Srs>>
  {
    var a :- Decode([S16, S32, S16, S16, S8, S8, S8, S8, S8, S8, S8, S8], s);
    var b :- Decode([S16, S8, S8, S8, S8, S8, S16, S8, S8, S8, S16, S16], a.rest);
    var pdu :- SrsFrom(a.fields, b.fields);
    Some(Read(pdu, b.rest))
  }

  function SrsFrom(a: seq<Field>, b: seq<Field>): Option<Srs>
    requires |a| == |b| == 12
  {
    var bwp :- ReadBwp(a, 2);
    Some(Srs(As16(a[0]), As32(a[1]), bwp, As8(a[6]), As8(a[7]), As8(a[8]), As8(a[9]), As8(a[10]), As8(a[11]),
             As16(b[0]), As8(b[1]), As8(b[2]), As8(b[3]), As8(b[4]), As8(b[5]), As16(b[6]), As8(b[7]), As8(b[8]), As8(b[9]),
             As16(b[10]), As16(b[11])))
  }

  lemma SrsFromFields(p: Srs)
    ensures SrsFrom(SrsFields(p), SrsResourceFields(p)) == Some(p)
  {
  }

  lemma SrsBack(p: Srs, post: seq<Byte>)
    ensures ReadSrs(SrsBody(p) + post) == Some(Read(p, post))
  {
    hide Encode, Decode, SrsFields, SrsResourceFields, SrsFrom;
    var rest := Encode(SrsResourceFields(p)) + post;
    assert SrsBody(p) + post == Encode(SrsFields(p)) + rest;
    EncodeDecode(SrsFields(p), rest);
    SrsShapes(p);
    EncodeDecode(SrsResourceFields(p), post);
    SrsResourceShapes(p);
    SrsFromFields(p);
  }

  /** serialize_srs_pdu. */
  method SerializeSrs(p: Srs, buf: array<Byte>, pos: nat) returns (size: nat)
    requires pos + 38 <= buf.Length
    modifies buf
    ensures |SrsBody(p)| + FRAME == size == 38
    ensures buf[..] == Overwrite(old(buf[..]), pos, PduBytes(SRS, SrsBody(p)))
  {
    hide Encode, SrsFields, SrsResourceFields;
    SrsSize(p);
    ghost var base := buf[..];
    var next := Begin(buf, pos, SRS);
    ghost var b1, acc := buf[..], Encode(SrsFields(p));
    next := PutFields(buf, next, SrsFields(p));
    next, acc := Append(buf, next, SrsResourceFields(p), b1, pos + FRAME, acc);
    size := Finish(buf, pos, next, SRS, base, SrsBody(p));
  }
}
