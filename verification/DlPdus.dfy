/** DL_TTI PDUs (SCF 222, section 3.4.2): PDCCH with its two bit-packed fields, PDSCH with its codeword list,
    and the fixed-size SSB. */
module DlPdus {
  import opened Wire
  import opened Bits
  import opened PduFrame

  const PDCCH: U16 := 0
  const PDSCH: U16 := 1
  const SSB: U16 := 3

  // ================================================================ PDCCH

  datatype Mapping =
    | Coreset0(bundle: Byte, interleaver: Byte, shift: U16)
    | Interleaved(bundle: Byte, interleaver: Byte, shift: U16)
    | NonInterleaved(bundle: Byte)

  datatype Dci = Dci(rnti: U16, scramblingId: U16, scramblingRnti: U16, cce: Byte, aggregation: Byte, payload: seq<bool>)

  /** One DCI per PDCCH PDU. `resource` is the frequency-domain bitmap, of which the wire holds 45 bits. */
  datatype Pdcch = Pdcch(bwp: Bwp, symStart: Byte, symLength: Byte, resource: seq<bool>, mapping: Mapping, granularity: Byte, dci: Dci)

  const RESOURCE_BITS: nat := 45

  /** The bits of the frequency bitmap that are sent. */
  function Sent(resource: seq<bool>): seq<bool>
  {
    if |resource| <= RESOURCE_BITS then resource else resource[..RESOURCE_BITS]
  }

  /** What the 45 wire bits say: the bits sent, then zeros. */
  function Received(resource: seq<bool>): (r: seq<bool>)
    ensures |r| == RESOURCE_BITS
  {
    seq(RESOURCE_BITS, i requires 0 <= i < RESOURCE_BITS => i < |resource| && resource[i])
  }

  predicate PdcchValid(p: Pdcch)
  {
    |p.dci.payload| < 0x1_0000
  }

  function CoresetFields(p: Pdcch): seq<Field>
  {
    [F16(p.bwp.size), F16(p.bwp.start), F8(p.bwp.scs), F8(Flag(p.bwp.extendedPrefix)), F8(p.symStart), F8(p.symLength)]
  }

  function MappingFields(p: Pdcch): seq<Field>
  {
    match p.mapping
    case Coreset0(b, i, s) => [F8(0), F8(b), F8(i), F8(1), F16(s), F8(p.granularity), F16(1)]
    case Interleaved(b, i, s) => [F8(0), F8(b), F8(i), F8(0), F16(s), F8(p.granularity), F16(1)]
    case NonInterleaved(b) => [F8(1), F8(b), F8(0), F8(0), F16(0), F8(p.granularity), F16(1)]
  }

  function DciFields(d: Dci): seq<Field>
    requires |d.payload| < 0x1_0000
  {
    [F16(d.rnti), F16(d.scramblingId), F16(d.scramblingRnti), F8(d.cce), F8(d.aggregation), F16(0), F16(0), F8(0), F8(0), F8(1), F16(|d.payload|)]
  }

  function PdcchHead(p: Pdcch): seq<Byte>
  {
    Encode(CoresetFields(p)) + Pack(LsbFirst, Sent(p.resource), 6)
  }

  function PdcchBody(p: Pdcch): seq<Byte>
    requires PdcchValid(p)
  {
    PdcchHead(p) + Encode(MappingFields(p)) + Encode(DciFields(p.dci)) + Pack(MsbFirst, p.dci.payload, BytesFor(|p.dci.payload|))
  }

  lemma CoresetShapes(p: Pdcch)
    ensures Shapes(CoresetFields(p)) == [S16, S16, S8, S8, S8, S8]
  {
  }

  lemma CoresetWidth(p: Pdcch)
    ensures |Encode(CoresetFields(p))| == 8
  {
    hide Encode, CoresetFields;
    EncodeWidth(CoresetFields(p));
    CoresetShapes(p);
    assert TotalWidth([S16, S16, S8, S8, S8, S8]) == 8;
  }

  lemma MappingShapes(p: Pdcch)
    ensures Shapes(MappingFields(p)) == [S8, S8, S8, S8, S16, S8, S16]
  {
  }

  lemma MappingWidth(p: Pdcch)
    ensures |Encode(MappingFields(p))| == 9
  {
    hide Encode, MappingFields;
    EncodeWidth(MappingFields(p));
    MappingShapes(p);
    assert TotalWidth([S8, S8, S8, S8, S16, S8, S16]) == 9;
  }

  lemma DciShapes(d: Dci)
    requires |d.payload| < 0x1_0000
    ensures Shapes(DciFields(d)) == [S16, S16, S16, S8, S8, S16, S16, S8, S8, S8, S16]
  {
  }

  lemma DciWidth(d: Dci)
    requires |d.payload| < 0x1_0000
    ensures |Encode(DciFields(d))| == 17
  {
    hide Encode, DciFields;
    EncodeWidth(DciFields(d));
    DciShapes(d);
    assert TotalWidth([S16, S16, S8, S8, S8, S16]) == 9;
    assert TotalWidth([S16, S16, S16, S8, S8, S16, S16, S8, S8, S8, S16]) == 17;
  }

  lemma PdcchSize(p: Pdcch)
    requires PdcchValid(p)
    ensures |PdcchBody(p)| + FRAME == 44 + BytesFor(|p.dci.payload|) < 0x1_0000
  {
    hide Encode, CoresetFields, MappingFields, DciFields;
    CoresetWidth(p);
    MappingWidth(p);
    DciWidth(p.dci);
  }

  /** serialize_pdcch_pdu. */
  method SerializePdcch(p: Pdcch, buf: array<Byte>, pos: nat) returns (size: nat)
    requires PdcchValid(p) && pos + FRAME + |PdcchBody(p)| <= buf.Length
    modifies buf
    ensures |PdcchBody(p)| + FRAME == size < 0x1_0000
    ensures buf[..] == Overwrite(old(buf[..]), pos, PduBytes(PDCCH, PdcchBody(p)))
  {
    hide PdcchBody;
    PdcchSize(p);
    ghost var base := buf[..];
    var next := Begin(buf, pos, PDCCH);
    next := PutPdcchBody(p, buf, next);
    size := Finish(buf, pos, next, PDCCH, base, PdcchBody(p));
  }

  method PutPdcchBody(p: Pdcch, buf: array<Byte>, start: nat) returns (next: nat)
    requires PdcchValid(p) && start + |PdcchBody(p)| <= buf.Length
    modifies buf
    ensures next == start + |PdcchBody(p)| && buf[..] == Overwrite(old(buf[..]), start, PdcchBody(p))
  {
    hide Encode, CoresetFields, MappingFields, DciFields, PackByte;
    ghost var base := buf[..];
    next := PutFields(buf, start, CoresetFields(p));
    PackInto(buf, next, LsbFirst, Sent(p.resource), 6);
    OverwriteMeets(base, start, Encode(CoresetFields(p)), Pack(LsbFirst, Sent(p.resource), 6));
    next := next + 6;
    ghost var acc := PdcchHead(p);
    next, acc := Append(buf, next, MappingFields(p), base, start, acc);
    next, acc := Append(buf, next, DciFields(p.dci), base, start, acc);
    var n := BytesFor(|p.dci.payload|);
    PackInto(buf, next, MsbFirst, p.dci.payload, n);
    OverwriteMeets(base, start, acc, Pack(MsbFirst, p.dci.payload, n));
    next := next + n;
  }

  // ---------------------------------------------------------------- reading a PDCCH PDU back

  function MappingFrom(f: seq<Field>): Option<Mapping>
    requires |f| == 7
  {
    var plain :- ReadFlag(As8(f[0]));
    var coreset0 :- ReadFlag(As8(f[3]));
    if plain then
      if coreset0 || !Blank(f[2]) || !Blank(f[4]) then None else Some(NonInterleaved(As8(f[1])))
    else if coreset0 then Some(Coreset0(As8(f[1]), As8(f[2]), As16(f[4])))
    else Some(Interleaved(As8(f[1]), As8(f[2]), As16(f[4])))
  }

  /** The first `n` bits of a packed stream; those behind them, up to the end of its last byte, must be zero. */
  function ReadBits(order: Order, bytes: seq<Byte>, n: nat): Option<seq<bool>>
    requires n <= 8 * |bytes|
  {
    var all := Unpack(order, bytes, 8 * |bytes|);
    if true in all[n..] then None else Some(all[..n])
  }

  /** Reads a PDCCH configuration from its bytes alone; the DCI bit length says how long the payload is. There must be one
      DCI, no beamforming, and the power offset 1. */
  function ReadPdcch(s: seq<Byte>): Option<Read<Pdcch>>
  {
    var a :- Decode([S16, S16, S8, S8, S8, S8], s);
    var r := a.rest;
    if |r| < 6 then None
    else
      var b :- Decode([S8, S8, S8, S8, S16, S8, S16], r[6..]);
      var c :- Decode([S16, S16, S16, S8, S8, S16, S16, S8, S8, S8, S16], b.rest);
      var bits := As16(c.fields[10]);
      if |c.rest| < BytesFor(bits) || b.fields[6] != F16(1) || c.fields[9] != F8(1) || !AllBlank(c.fields[5..9]) then None
      else
        var payload :- ReadBits(MsbFirst, c.rest[..BytesFor(bits)], bits);
        var resource :- ReadBits(LsbFirst, r[..6], RESOURCE_BITS);
        var pdu :- PdcchFrom(a.fields, resource, b.fields, c.fields, payload);
        Some(Read(pdu, c.rest[BytesFor(bits)..]))
  }

  function PdcchFrom(a: seq<Field>, resource: seq<bool>, b: seq<Field>, c: seq<Field>, payload: seq<bool>): Option<Pdcch>
    requires |a| == 6 && |b| == 7 && |c| == 11
  {
    var bwp :- ReadBwp(a, 0);
    var mapping :- MappingFrom(b);
    Some(Pdcch(bwp, As8(a[4]), As8(a[5]), resource, mapping, As8(b[5]),
               Dci(As16(c[0]), As16(c[1]), As16(c[2]), As8(c[3]), As8(c[4]), payload)))
  }

  lemma BitsBack(order: Order, bits: seq<bool>, n: nat)
    requires |bits| <= 8 * n
    ensures ReadBits(order, Pack(order, bits, n), |bits|) == Some(bits)
  {
    hide Pack;
    PackedBits(order, bits, n);
    var packed := Pack(order, bits, n);
    var all := Unpack(order, packed, 8 * n);
    forall i | 0 <= i < 8 * n ensures all[i] == (i < |bits| && bits[i]) {
      assert all[i] == StreamBit(order, packed, i);
    }
    assert all[..|bits|] == bits;
    assert true !in all[|bits|..];
  }

  lemma PdcchFromFields(p: Pdcch, resource: seq<bool>)
    requires PdcchValid(p)
    ensures PdcchFrom(CoresetFields(p), resource, MappingFields(p), DciFields(p.dci), p.dci.payload) == Some(p.(resource := resource))
    ensures As16(DciFields(p.dci)[10]) == |p.dci.payload|
    ensures MappingFields(p)[6] == F16(1) && DciFields(p.dci)[9] == F8(1) && AllBlank(DciFields(p.dci)[5..9])
  {
    assert DciFields(p.dci)[5..9] == [F16(0), F16(0), F8(0), F8(0)];
  }

  lemma ResourceBack(resource: seq<bool>)
    ensures ReadBits(LsbFirst, Pack(LsbFirst, Sent(resource), 6), RESOURCE_BITS) == Some(Received(resource))
  {
    hide Pack;
    var packed := Pack(LsbFirst, Sent(resource), 6);
    PackedBits(LsbFirst, Sent(resource), 6);
    var all := Unpack(LsbFirst, packed, 48);
    forall i | 0 <= i < 48 ensures all[i] == (i < |Sent(resource)| && Sent(resource)[i]) {
      assert all[i] == StreamBit(LsbFirst, packed, i);
    }
    assert all[..RESOURCE_BITS] == Received(resource);
    assert true !in all[RESOURCE_BITS..];
  }

  /** Everything a PDCCH PDU carries is recovered; of the frequency bitmap, its first 45 bits. */
  lemma PdcchBack(p: Pdcch, post: seq<Byte>)
    requires PdcchValid(p)
    ensures ReadPdcch(PdcchBody(p) + post) == Some(Read(p.(resource := Received(p.resource)), post))
  {
    hide Encode, Decode, CoresetFields, MappingFields, DciFields, Pack, Unpack, PdcchFrom, MappingFrom, Sent, Received, ReadBits;
    var n := |p.dci.payload|;
    var packed := Pack(MsbFirst, p.dci.payload, BytesFor(n));
    var resource := Pack(LsbFirst, Sent(p.resource), 6);
    var s4 := packed + post;
    var s3 := Encode(DciFields(p.dci)) + s4;
    var s2 := Encode(MappingFields(p)) + s3;
    Concat5(Encode(CoresetFields(p)), resource, Encode(MappingFields(p)), Encode(DciFields(p.dci)), packed, post);
    EncodeDecode(CoresetFields(p), resource + s2);
    CoresetShapes(p);
    assert (resource + s2)[..6] == resource && (resource + s2)[6..] == s2;
    EncodeDecode(MappingFields(p), s3);
    MappingShapes(p);
    EncodeDecode(DciFields(p.dci), s4);
    DciShapes(p.dci);
    assert s4[..BytesFor(n)] == packed && s4[BytesFor(n)..] == post;
    BitsBack(MsbFirst, p.dci.payload, BytesFor(n));
    ResourceBack(p.resource);
    PdcchFromFields(p, Received(p.resource));
  }

  lemma Concat5(a: seq<Byte>, b: seq<Byte>, c: seq<Byte>, d: seq<Byte>, e: seq<Byte>, post: seq<Byte>)
    ensures a + b + c + d + e + post == a + (b + (c + (d + (e + post))))
  {
    Regroup(a + b + c + d, e, post);
    Regroup4(a, b, c, d, e + post);
  }

  // ================================================================ PDSCH

  datatype McsEntry = McsEntry(qam: Byte, rateTenths: U16)

  /** The MCS tables and the environment switch that forces table 0. */
  datatype McsTables = McsTables(entries: (nat, nat) -> McsEntry, forceTable0: bool)

  function EffectiveTable(t: McsTables, requested: Byte): Byte
  {
    if t.forceTable0 then 0 else requested
  }

  function EntryOf(t: McsTables, table: Byte, index: Byte): McsEntry
  {
    t.entries(if table < 4 then table else 0, if index < 32 then index else 0)
  }

  datatype Codeword = Codeword(mcsTable: Byte, mcsIndex: Byte, qam: Byte, rv: Byte, tbSize: U32)

  datatype WireCodeword = WireCodeword(rateTenths: U16, qam: Byte, mcsIndex: Byte, mcsTable: Byte, rv: Byte, tbSize: U32)

  /** What a codeword becomes on the wire: rate and modulation come from the effective table. */
  function Lookup(t: McsTables, c: Codeword): WireCodeword
  {
    var table := EffectiveTable(t, c.mcsTable);
    var e := EntryOf(t, table, c.mcsIndex);
    WireCodeword(e.rateTenths, if e.qam != 0 then e.qam else c.qam, c.mcsIndex, table, c.rv, c.tbSize)
  }

  datatype Pdsch<+C> = Pdsch(
    rnti: U16, bwp: Bwp, cws: seq<C>, nid: U16, layers: Byte, refPoint: Byte, dmrsSymbols: U16, dmrsType: Byte, dmrsScrambling: U16,
    nscid: Byte, cdmGroupsNoData: Byte, dmrsPorts: U16, rbStart: U16, rbSize: U16, vrbToPrb: Byte, symStart: Byte, symLength: Byte)

  function Wired(t: McsTables, p: Pdsch<Codeword>): Pdsch<WireCodeword>
  {
    Pdsch(p.rnti, p.bwp, seq(|p.cws|, i requires 0 <= i < |p.cws| => Lookup(t, p.cws[i])), p.nid, p.layers, p.refPoint, p.dmrsSymbols,
          p.dmrsType, p.dmrsScrambling, p.nscid, p.cdmGroupsNoData, p.dmrsPorts, p.rbStart, p.rbSize, p.vrbToPrb, p.symStart, p.symLength)
  }

  function PdschHead(p: Pdsch<WireCodeword>, index: U16): seq<Field>
    requires |p.cws| < 0x100
  {
    [F16(0), F16(p.rnti), F16(index), F16(p.bwp.size), F16(p.bwp.start), F8(p.bwp.scs), F8(Flag(p.bwp.extendedPrefix)), F8(|p.cws|)]
  }

  function CodewordFields(c: WireCodeword): seq<Field>
  {
    [F16(c.rateTenths), F8(c.qam), F8(c.mcsIndex), F8(c.mcsTable), F8(c.rv), F32(c.tbSize)]
  }

  function PdschReference(p: Pdsch<WireCodeword>): seq<Field>
  {
    [F16(p.nid), F8(p.layers), F8(0), F8(p.refPoint), F16(p.dmrsSymbols), F8(p.dmrsType), F16(p.dmrsScrambling), F8(p.nscid), F8(p.cdmGroupsNoData),
     F16(p.dmrsPorts)]
  }

  function PdschAllocation(p: Pdsch<WireCodeword>): seq<Field>
  {
    [F8(1), Raw(Zeros(36)), F16(p.rbStart), F16(p.rbSize), F8(p.vrbToPrb), F8(p.symStart), F8(p.symLength), F16(0), F16(0), F8(0), F8(8), F8(1)]
  }

  function CodewordsBytes(cws: seq<WireCodeword>): seq<Byte>
  {
    if cws == [] then [] else Encode(CodewordFields(cws[0])) + CodewordsBytes(cws[1..])
  }

  function PdschBody(p: Pdsch<WireCodeword>, index: U16): seq<Byte>
    requires |p.cws| < 0x100
  {
    Encode(PdschHead(p, index)) + CodewordsBytes(p.cws) + Encode(PdschReference(p)) + Encode(PdschAllocation(p))
  }

  lemma PdschHeadShapes(p: Pdsch<WireCodeword>, index: U16)
    requires |p.cws| < 0x100
    ensures Shapes(PdschHead(p, index)) == [S16, S16, S16, S16, S16, S8, S8, S8]
  {
  }

  lemma PdschHeadWidth(p: Pdsch<WireCodeword>, index: U16)
    requires |p.cws| < 0x100
    ensures |Encode(PdschHead(p, index))| == 13
  {
    hide Encode, PdschHead;
    EncodeWidth(PdschHead(p, index));
    PdschHeadShapes(p, index);
    assert TotalWidth([S16, S16, S16, S16, S16, S8, S8, S8]) == 13;
  }

  lemma CodewordShapes(c: WireCodeword)
    ensures Shapes(CodewordFields(c)) == [S16, S8, S8, S8, S8, S32]
  {
  }

  lemma CodewordWidth(c: WireCodeword)
    ensures |Encode(CodewordFields(c))| == 10
  {
    hide Encode, CodewordFields;
    EncodeWidth(CodewordFields(c));
    CodewordShapes(c);
    assert TotalWidth([S16, S8, S8, S8, S8, S32]) == 10;
  }

  lemma PdschReferenceShapes(p: Pdsch<WireCodeword>)
    ensures Shapes(PdschReference(p)) == [S16, S8, S8, S8, S16, S8, S16, S8, S8, S16]
  {
  }

  lemma PdschReferenceWidth(p: Pdsch<WireCodeword>)
    ensures |Encode(PdschReference(p))| == 14
  {
    hide Encode, PdschReference;
    EncodeWidth(PdschReference(p));
    PdschReferenceShapes(p);
    assert TotalWidth([S8, S16, S8, S8, S16]) == 7;
    assert TotalWidth([S16, S8, S8, S8, S16, S8, S16, S8, S8, S16]) == 14;
  }

  lemma PdschAllocationShapes(p: Pdsch<WireCodeword>)
    ensures Shapes(PdschAllocation(p)) == [S8, SRaw(36), S16, S16, S8, S8, S8, S16, S16, S8, S8, S8]
  {
  }

  lemma PdschAllocationTotal()
    ensures TotalWidth([S8, SRaw(36), S16, S16, S8, S8, S8, S16, S16, S8, S8, S8]) == 51
  {
    assert TotalWidth([S16, S16, S8, S8, S8]) == 7;
    assert TotalWidth([S16, S16, S8, S8, S8, S16, S16, S8, S8, S8]) == 14;
  }

  lemma PdschAllocationWidth(p: Pdsch<WireCodeword>)
    ensures |Encode(PdschAllocation(p))| == 51
  {
    hide Encode, PdschAllocation;
    EncodeWidth(PdschAllocation(p));
    PdschAllocationShapes(p);
    PdschAllocationTotal();
  }

  lemma {:induction false} CodewordsWidth(cws: seq<WireCodeword>)
    ensures |CodewordsBytes(cws)| == 10 * |cws|
  {
    hide Encode, CodewordFields;
    if cws != [] {
      CodewordWidth(cws[0]);
      CodewordsWidth(cws[1..]);
    }
  }

  lemma PdschSize(p: Pdsch<WireCodeword>, index: U16)
    requires |p.cws| < 0x100
    ensures |PdschBody(p, index)| + FRAME == 82 + 10 * |p.cws| < 0x1_0000
  {
    hide Encode, PdschHead, PdschReference, PdschAllocation, CodewordsBytes;
    PdschHeadWidth(p, index);
    CodewordsWidth(p.cws);
    PdschReferenceWidth(p);
    PdschAllocationWidth(p);
  }

  /** serialize_pdsch_pdu. */
  method SerializePdsch(t: McsTables, p: Pdsch<Codeword>, buf: array<Byte>, pos: nat, index: U16) returns (size: nat)
    requires |p.cws| < 0x100 && pos + 82 + 10 * |p.cws| <= buf.Length
    modifies buf
    ensures |PdschBody(Wired(t, p), index)| + FRAME == size == 82 + 10 * |p.cws| < 0x1_0000
    ensures buf[..] == Overwrite(old(buf[..]), pos, PduBytes(PDSCH, PdschBody(Wired(t, p), index)))
  {
    hide PdschBody;
    PdschSize(Wired(t, p), index);
    ghost var base := buf[..];
    var next := Begin(buf, pos, PDSCH);
    next := PutPdschBody(t, p, buf, next, index);
    size := Finish(buf, pos, next, PDSCH, base, PdschBody(Wired(t, p), index));
  }

  method PutPdschBody(t: McsTables, p: Pdsch<Codeword>, buf: array<Byte>, start: nat, index: U16) returns (next: nat)
    requires |p.cws| < 0x100 && start + |PdschBody(Wired(t, p), index)| <= buf.Length
    modifies buf
    ensures next == start + |PdschBody(Wired(t, p), index)|
    ensures buf[..] == Overwrite(old(buf[..]), start, PdschBody(Wired(t, p), index))
  {
    hide Encode, PdschHead, PdschReference, PdschAllocation, CodewordsBytes, Lookup;
    var w := Wired(t, p);
    CodewordsWidth(w.cws);
    ghost var base, acc := buf[..], Encode(PdschHead(w, index));
    next := PutFields(buf, start, PdschHead(w, index));
    next := PutCodewords(t, p.cws, w.cws, buf, next);
    OverwriteMeets(base, start, acc, CodewordsBytes(w.cws));
    acc := acc + CodewordsBytes(w.cws);
    next, acc := Append(buf, next, PdschReference(w), base, start, acc);
    next, acc := Append(buf, next, PdschAllocation(w), base, start, acc);
  }

  /** The codeword loop. */
  method PutCodewords(t: McsTables, cws: seq<Codeword>, ghost wired: seq<WireCodeword>, buf: array<Byte>, start: nat) returns (next: nat)
    requires |wired| == |cws| && forall i :: 0 <= i < |cws| ==> wired[i] == Lookup(t, cws[i])
    requires start + 10 * |cws| <= buf.Length
    modifies buf
    ensures |CodewordsBytes(wired)| == 10 * |cws| && next == start + 10 * |cws|
    ensures buf[..] == Overwrite(old(buf[..]), start, CodewordsBytes(wired))
  {
    hide Encode, CodewordFields, CodewordsBytes, Lookup;
    ghost var base := buf[..];
    next := start;
    CodewordsWidth(wired);
    CodewordsEdges(wired);
    assert wired[..0] == [] && Overwrite(base, start, []) == base;
    for i := 0 to |cws|
      invariant next == start + 10 * i && |CodewordsBytes(wired[..i])| == 10 * i
      invariant buf[..] == Overwrite(base, start, CodewordsBytes(wired[..i]))
    {
      var c := Lookup(t, cws[i]);
      CodewordWidth(c);
      next := PutFields(buf, next, CodewordFields(c));
      OverwriteMeets(base, start, CodewordsBytes(wired[..i]), Encode(CodewordFields(c)));
      assert wired[..i + 1] == wired[..i] + [c];
      CodewordsSnoc(wired[..i], c);
    }
    assert wired[..|cws|] == wired;
  }

  lemma CodewordsEdges(cws: seq<WireCodeword>)
    ensures CodewordsBytes([]) == []
  {
  }

  lemma {:induction false} CodewordsSnoc(cws: seq<WireCodeword>, c: WireCodeword)
    ensures CodewordsBytes(cws + [c]) == CodewordsBytes(cws) + Encode(CodewordFields(c))
  {
    hide Encode, CodewordFields;
    if cws == [] {
      assert [c][1..] == [];
      assert CodewordsBytes([c]) == Encode(CodewordFields(c)) + CodewordsBytes([]);
    } else {
      assert (cws + [c])[1..] == cws[1..] + [c];
      CodewordsSnoc(cws[1..], c);
    }
  }

  // ---------------------------------------------------------------- reading a PDSCH PDU back

  function ReadCodewords(s: seq<Byte>, n: nat): Option<Read<seq<WireCodeword>>>
    decreases n
  {
    if n == 0 then Some(Read([], s))
    else
      var d :- Decode([S16, S8, S8, S8, S8, S32], s);
      var f := d.fields;
      var c := WireCodeword(As16(f[0]), As8(f[1]), As8(f[2]), As8(f[3]), As8(f[4]), As32(f[5]));
      var r :- ReadCodewords(d.rest, n - 1);
      Some(Read([c] + r.pdu, r.rest))
  }

  datatype Indexed<+T> = Indexed(index: U16, pdu: T)

  /** Reads a PDSCH configuration from its bytes alone; the codeword count says how many codewords to take. There must be
      no PTRS or CBG block, transmission scheme 0, resource allocation type 1, no beamforming, and the power offsets 8
      and 1. */
  function ReadPdsch(s: seq<Byte>): Option<Read<Indexed<Pdsch<WireCodeword>>>>
  {
    var a :- Decode([S16, S16, S16, S16, S16, S8, S8, S8], s);
    var cws :- ReadCodewords(a.rest, As8(a.fields[7]));
    var b :- Decode([S16, S8, S8, S8, S16, S8, S16, S8, S8, S16], cws.rest);
    var c :- Decode([S8, SRaw(36), S16, S16, S8, S8, S8, S16, S16, S8, S8, S8], b.rest);
    var pdu :- PdschFrom(a.fields, cws.pdu, b.fields, c.fields);
    Some(Read(Indexed(As16(a.fields[2]), pdu), c.rest))
  }

  function PdschFrom(a: seq<Field>, cws: seq<WireCodeword>, b: seq<Field>, c: seq<Field>): Option<Pdsch<WireCodeword>>
    requires |a| == 8 && |b| == 10 && |c| == 12
  {
    var bwp :- ReadBwp(a, 3);
    if !(Blank(a[0]) && Blank(b[2]) && c[0] == F8(1) && Blank(c[1]) && AllBlank(c[7..10]) && c[10..] == [F8(8), F8(1)]) then None
    else Some(Pdsch(As16(a[1]), bwp, cws, As16(b[0]), As8(b[1]), As8(b[3]), As16(b[4]), As8(b[5]), As16(b[6]), As8(b[7]), As8(b[8]),
                    As16(b[9]), As16(c[2]), As16(c[3]), As8(c[4]), As8(c[5]), As8(c[6])))
  }

  lemma PdschFromFields(p: Pdsch<WireCodeword>, index: U16)
    requires |p.cws| < 0x100
    ensures PdschFrom(PdschHead(p, index), p.cws, PdschReference(p), PdschAllocation(p)) == Some(p)
    ensures As16(PdschHead(p, index)[2]) == index && As8(PdschHead(p, index)[7]) == |p.cws|
  {
    assert PdschAllocation(p)[7..10] == [F16(0), F16(0), F8(0)];
    assert PdschAllocation(p)[10..] == [F8(8), F8(1)];
  }

  lemma {:induction false} CodewordsBack(cws: seq<WireCodeword>, post: seq<Byte>)
    ensures ReadCodewords(CodewordsBytes(cws) + post, |cws|) == Some(Read(cws, post))
  {
    hide Encode, Decode;
    if cws == [] {
      assert [] + post == post;
    } else {
      var rest := CodewordsBytes(cws[1..]) + post;
      assert CodewordsBytes(cws) + post == Encode(CodewordFields(cws[0])) + rest;
      EncodeDecode(CodewordFields(cws[0]), rest);
      CodewordShapes(cws[0]);
      CodewordsBack(cws[1..], post);
      assert [cws[0]] + cws[1..] == cws;
    }
  }

  /** Every field a PDSCH PDU carries is recovered, with its index within the request. */
  lemma PdschBack(p: Pdsch<WireCodeword>, index: U16, post: seq<Byte>)
    requires |p.cws| < 0x100
    ensures ReadPdsch(PdschBody(p, index) + post) == Some(Read(Indexed(index, p), post))
  {
    hide Encode, Decode, PdschHead, PdschReference, PdschAllocation, CodewordsBytes, ReadCodewords, PdschFrom;
    var s4 := Encode(PdschAllocation(p)) + post;
    var s3 := Encode(PdschReference(p)) + s4;
    var s2 := CodewordsBytes(p.cws) + s3;
    Regroup4(Encode(PdschHead(p, index)), CodewordsBytes(p.cws), Encode(PdschReference(p)), Encode(PdschAllocation(p)), post);
    EncodeDecode(PdschHead(p, index), s2);
    PdschHeadShapes(p, index);
    CodewordsBack(p.cws, s3);
    EncodeDecode(PdschReference(p), s4);
    PdschReferenceShapes(p);
    EncodeDecode(PdschAllocation(p), post);
    PdschAllocationShapes(p);
    PdschFromFields(p, index);
  }

  // ================================================================ SSB

  /** Only the profile of NR gives the power byte; with the other one it is zero. */
  datatype PowerProfile = NrProfile(beta: Byte) | SssProfile

  datatype Ssb = Ssb(cellId: U16, power: PowerProfile, blockIndex: Byte, subcarrierOffset: Byte, offsetPointA: U16, bchPayload: U32)

  function SsbFields(p: Ssb): seq<Field>
  {
    [F16(p.cellId), F8(if p.power.NrProfile? then p.power.beta else 0), F8(p.blockIndex), F8(p.subcarrierOffset),
     F16(p.offsetPointA), F8(1), F32(p.bchPayload)]
  }

  lemma SsbShapes(p: Ssb)
    ensures Shapes(SsbFields(p)) == [S16, S8, S8, S8, S16, S8, S32]
  {
  }

  lemma SsbWidth(p: Ssb)
    ensures |Encode(SsbFields(p))| == 12
  {
    hide Encode, SsbFields;
    EncodeWidth(SsbFields(p));
    SsbShapes(p);
    assert TotalWidth([S16, S8, S8, S8, S16, S8, S32]) == 12;
  }

  function ReadSsb(s: seq<Byte>): Option<Read<Ssb>>
  {
    var d :- Decode([S16, S8, S8, S8, S16, S8, S32], s);
    if d.fields[5] != F8(1) then None else Some(Read(SsbFrom(d.fields), d.rest))
  }

  function SsbFrom(f: seq<Field>): Ssb
    requires |f| == 7
  {
    Ssb(As16(f[0]), NrProfile(As8(f[1])), As8(f[2]), As8(f[3]), As16(f[4]), As32(f[6]))
  }

  /** An SSB PDU reads back, with the power byte the NR profile gave it or zero. */
  lemma SsbBack(p: Ssb, post: seq<Byte>)
    ensures var beta := match p.power case NrProfile(b) => b case SssProfile => 0;
            ReadSsb(Encode(SsbFields(p)) + post) == Some(Read(p.(power := NrProfile(beta)), post))
  {
    hide Encode, Decode;
    EncodeDecode(SsbFields(p), post);
    SsbShapes(p);
  }

  /** serialize_ssb_pdu. */
  method SerializeSsb(p: Ssb, buf: array<Byte>, pos: nat) returns (size: nat)
    requires pos + 16 <= buf.Length
    modifies buf
    ensures |Encode(SsbFields(p))| + FRAME == size == 16
    ensures buf[..] == Overwrite(old(buf[..]), pos, PduBytes(SSB, Encode(SsbFields(p))))
  {
    hide Encode, SsbFields;
    SsbWidth(p);
    ghost var base := buf[..];
    var next := Begin(buf, pos, SSB);
    next := PutFields(buf, next, SsbFields(p));
    size := Finish(buf, pos, next, SSB, base, Encode(SsbFields(p)));
  }
}
