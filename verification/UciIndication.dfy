/** UCI.indication (SCF 222, section 3.4.9): what a message says, as functions of its bytes, and the
    cursor-driven dispatcher proved against them. */
module UciIndication {
  import opened Wire
  import opened Bits
  import opened Reports

  /** The capacities of the upper layer's payload types, which this repository does not define. */
  datatype Limits = Limits(maxPayloadBits: nat, maxSrBits: nat, maxHarq: nat)

  const MESSAGE_HEAD: nat := 14  // envelope, body header, SFN, slot, number of PDUs
  const PDU_HEAD: nat := 4       // PDU type and size
  const PUSCH_SECTIONS: nat := 16
  const PUCCH_SECTIONS: nat := 17
  const NO_SINR: int := -0x8000
  const NO_RSRP: U16 := 0xFFFF

  // ---------------------------------------------------------------- lookups

  function DetectionOf(status: Byte): Detection
  {
    match status
    case 0 => CrcPass
    case 1 => CrcFailure
    case 2 => Dtx
    case 3 => NoDtx
    case _ => DtxNotChecked
  }

  function TimingAdvanceOf(raw: U16): Option<U16>
  {
    if raw == 0xFFFF then None else Some(raw)
  }

  // ---------------------------------------------------------------- variable-length sections

  /** A section the PDU bitmap may name: its header (a status byte when `head` is 3, then a 16-bit
      bit length) and the longest payload its receiver can hold. */
  datatype Slot = Slot(named: bool, head: nat, limit: nat)
  {
    predicate Valid()
    {
      head == 2 || head == 3
    }
  }

  datatype Section = Section(status: Byte, bits: seq<bool>)

  function BitLength(ext: seq<Byte>, q: nat, head: nat): U16
    requires 2 <= head && q + head <= |ext|
  {
    U16At(ext, q + head - 2)
  }

  /** The bytes a section declares for itself. */
  function Declared(ext: seq<Byte>, q: nat, head: nat): nat
    requires 2 <= head && q + head <= |ext|
  {
    head + BytesFor(BitLength(ext, q, head))
  }

  function SectionAt(ext: seq<Byte>, q: nat, slot: Slot): Option<Section>
    requires slot.Valid()
  {
    if slot.named && q + slot.head <= |ext| && q + Declared(ext, q, slot.head) <= |ext| && BitLength(ext, q, slot.head) <= slot.limit then
      var n := BitLength(ext, q, slot.head);
      Some(Section(if slot.head == 3 then ext[q] else 0, Unpack(LsbFirst, ext[q + slot.head..q + slot.head + BytesFor(n)], n)))
    else
      None
  }

  /** Where the cursor stands once the section has been considered. */
  function After(ext: seq<Byte>, q: nat, slot: Slot): (r: nat)
    requires slot.Valid()
    ensures q <= r
  {
    if slot.named && q + slot.head <= |ext| then q + Declared(ext, q, slot.head) else q
  }

  predicate ValidPlan(plan: seq<Slot>)
  {
    forall i :: 0 <= i < |plan| ==> plan[i].Valid()
  }

  /** The sections found from `q` on, one entry per section the PDU kind knows. */
  function Sections(ext: seq<Byte>, q: nat, plan: seq<Slot>): (r: seq<Option<Section>>)
    requires ValidPlan(plan)
    ensures |r| == |plan|
    decreases |plan|
  {
    if plan == [] then []
    else [SectionAt(ext, q, plan[0])] + Sections(ext, After(ext, q, plan[0]), plan[1..])
  }

  // ---------------------------------------------------------------- one PDU

  function PuschPlan(bitmap: Byte, lim: Limits): (plan: seq<Slot>)
    ensures |plan| == 3 && ValidPlan(plan)
  {
    [Slot(Bit(bitmap, 1), 3, lim.maxPayloadBits), Slot(Bit(bitmap, 2), 3, lim.maxPayloadBits), Slot(Bit(bitmap, 3), 3, lim.maxPayloadBits)]
  }

  function Pucch234Plan(bitmap: Byte, lim: Limits): (plan: seq<Slot>)
    ensures |plan| == 4 && ValidPlan(plan)
  {
    [Slot(Bit(bitmap, 0), 2, lim.maxSrBits)] + PuschPlan(bitmap, lim)
  }

  function PuschHead(ext: seq<Byte>): Measured
    requires PUSCH_SECTIONS <= |ext|
  {
    Measured(U32At(ext, 5), U16At(ext, 9), NO_SINR, TimingAdvanceOf(U16At(ext, 12)), U16At(ext, 14), NO_RSRP)
  }

  function PucchHead(ext: seq<Byte>): Measured
    requires PUCCH_SECTIONS <= |ext|
  {
    Measured(U32At(ext, 5), U16At(ext, 9), NO_SINR, TimingAdvanceOf(U16At(ext, 13)), U16At(ext, 15), NO_RSRP)
  }

  function ToField(s: Option<Section>): Option<UciField>
  {
    match s
    case None => None
    case Some(x) => Some(UciField(DetectionOf(x.status), |x.bits|, x.bits))
  }

  function ToSr(s: Option<Section>): Option<seq<bool>>
  {
    match s
    case None => None
    case Some(x) => Some(x.bits)
  }

  /** The two short sections of PUCCH formats 0 and 1. */
  function ShortSr(ext: seq<Byte>, bitmap: Byte): Option<bool>
  {
    if Bit(bitmap, 0) && PUCCH_SECTIONS + 2 <= |ext| then Some(ext[PUCCH_SECTIONS] != 0) else None
  }

  function ShortHarqStart(ext: seq<Byte>, bitmap: Byte): nat
  {
    if Bit(bitmap, 0) && PUCCH_SECTIONS + 2 <= |ext| then PUCCH_SECTIONS + 2 else PUCCH_SECTIONS
  }

  function ShortHarq(ext: seq<Byte>, bitmap: Byte, lim: Limits): Option<seq<Byte>>
  {
    var q := ShortHarqStart(ext, bitmap);
    if Bit(bitmap, 1) && q + 2 <= |ext| && q + 2 + ext[q] <= |ext| && ext[q] <= lim.maxHarq
    then Some(ext[q + 2..q + 2 + ext[q]]) else None
  }

  function Format234(raw: Byte): nat
  {
    if raw == 0 then 2 else if raw == 1 then 3 else 4
  }

  /** What a PDU reports. It is a function of the PDU's own declared extent and of nothing else. */
  function PduOf(ext: seq<Byte>, lim: Limits): Option<UciPdu>
    requires PDU_HEAD <= |ext|
  {
    match U16At(ext, 0)
    case 0 =>
      if |ext| < PUSCH_SECTIONS then None
      else
        var s := Sections(ext, PUSCH_SECTIONS, PuschPlan(ext[4], lim));
        Some(Pusch(PuschHead(ext), ToField(s[0]), ToField(s[1]), ToField(s[2])))
    case 1 =>
      if |ext| < PUCCH_SECTIONS then None
      else Some(Pucch01(PucchHead(ext), if ext[11] == 0 then 0 else 1, ShortSr(ext, ext[4]), ShortHarq(ext, ext[4], lim)))
    case 2 =>
      if |ext| < PUCCH_SECTIONS then None
      else
        var s := Sections(ext, PUCCH_SECTIONS, Pucch234Plan(ext[4], lim));
        Some(Pucch234(PucchHead(ext), Format234(ext[11]), ToSr(s[0]), ToField(s[1]), ToField(s[2]), ToField(s[3])))
    case _ => None
  }

  // ---------------------------------------------------------------- the message

  /** A PDU starts at the front of `s` and its declared extent fits. */
  predicate Framed(s: seq<Byte>)
  {
    PDU_HEAD <= |s| && PDU_HEAD <= U16At(s, 2) <= |s|
  }

  /** What each PDU met by the walk reports; the walk stops at the first PDU that is not framed. */
  function Walk(s: seq<Byte>, n: nat, lim: Limits): seq<Option<UciPdu>>
  {
    if n == 0 || !Framed(s) then []
    else [PduOf(s[..U16At(s, 2)], lim)] + Walk(s[U16At(s, 2)..], n - 1, lim)
  }

  function Reported(slot: SlotPoint, w: seq<Option<UciPdu>>): seq<UciIndication>
  {
    if w == [] then []
    else (match w[0] case None => [] case Some(p) => [UciIndication(slot, p)]) + Reported(slot, w[1..])
  }

  function SlotOf(s: seq<Byte>, numerology: nat): SlotPoint
    requires 12 <= |s|
  {
    SlotPoint(numerology, U16At(s, 8), U16At(s, 10))
  }

  /** The notifications a UCI.indication message gives rise to, in order. */
  function Notifications(s: seq<Byte>, numerology: nat, lim: Limits): seq<UciIndication>
  {
    if |s| < MESSAGE_HEAD then []
    else Reported(SlotOf(s, numerology), Walk(s[MESSAGE_HEAD..], U16At(s, 12), lim))
  }

  // ---------------------------------------------------------------- the dispatcher

  /** One optional section of the PDU that occupies `buf[p..pEnd]`; no byte at or past `pEnd` is read. */
  method TakeSection(buf: array<Byte>, ghost p: nat, q: nat, pEnd: nat, slot: Slot)
    returns (section: Option<Section>, next: nat)
    requires p <= q && p <= pEnd <= buf.Length && slot.Valid()
    ensures section == SectionAt(buf[p..pEnd], q - p, slot)
    ensures next == p + After(buf[p..pEnd], q - p, slot)
  {
    hide Unpack, BytesFor;
    section, next := None, q;
    if slot.named && q + slot.head <= pEnd {
      var at := q + slot.head - 2;
      var n := buf[at] as int + 0x100 * (buf[at + 1] as int);
      assert n == BitLength(buf[p..pEnd], q - p, slot.head);
      if q + slot.head + BytesFor(n) <= pEnd {
        if n <= slot.limit {
          var bits := UnpackFrom(buf, q + slot.head, n);
          SubSlice(buf[..], p, pEnd, q - p + slot.head, q - p + slot.head + BytesFor(n));
          assert buf[..][p..pEnd] == buf[p..pEnd];
          assert buf[..][q + slot.head..q + slot.head + BytesFor(n)] == buf[q + slot.head..q + slot.head + BytesFor(n)];
          section := Some(Section(if slot.head == 3 then buf[q] else 0, bits));
        }
      }
      next := q + slot.head + BytesFor(n);
    }
  }

  /** The HARQ, CSI part 1 and CSI part 2 sections, from `q` on. */
  method TakeHarqAndCsi(buf: array<Byte>, ghost p: nat, q: nat, pEnd: nat, plan: seq<Slot>)
    returns (harq: Option<Section>, csi1: Option<Section>, csi2: Option<Section>)
    requires p <= q && p <= pEnd <= buf.Length && |plan| == 3 && ValidPlan(plan)
    ensures [harq, csi1, csi2] == Sections(buf[p..pEnd], q - p, plan)
  {
    hide Sections, SectionAt, After;
    var next;
    harq, next := TakeSection(buf, p, q, pEnd, plan[0]);
    csi1, next := TakeSection(buf, p, next, pEnd, plan[1]);
    csi2, next := TakeSection(buf, p, next, pEnd, plan[2]);
    Sections3(buf[p..pEnd], q - p, plan);
  }

  method TakePusch(buf: array<Byte>, p: nat, pEnd: nat, lim: Limits) returns (pdu: Option<UciPdu>)
    requires p + PDU_HEAD <= pEnd <= buf.Length && U16At(buf[p..pEnd], 0) == 0
    ensures pdu == PduOf(buf[p..pEnd], lim)
  {
    var q := p + PDU_HEAD;
    if q + 12 > pEnd {
      return None;
    }
    var head := ReadHead(buf, p, 12, pEnd);
    q := q + 12;
    var harq, csi1, csi2 := TakeHarqAndCsi(buf, p, q, pEnd, PuschPlan(buf[p + 4], lim));
    assert buf[p + 4] == buf[p..pEnd][4];
    pdu := Some(Pusch(head, ToField(harq), ToField(csi1), ToField(csi2)));
  }

  method TakePucch01(buf: array<Byte>, p: nat, pEnd: nat, lim: Limits) returns (pdu: Option<UciPdu>)
    requires p + PDU_HEAD <= pEnd <= buf.Length && U16At(buf[p..pEnd], 0) == 1
    ensures pdu == PduOf(buf[p..pEnd], lim)
  {
    ghost var ext := buf[p..pEnd];
    var q := p + PDU_HEAD;
    if q + 13 > pEnd {
      return None;
    }
    var bitmap := buf[p + 4];
    var head := ReadHead(buf, p, 13, pEnd);
    q := q + 13;
    var sr: Option<bool> := None;
    if Bit(bitmap, 0) && q + 2 <= pEnd {
      sr := Some(buf[q] != 0);
      q := q + 2;
    }
    assert q == p + ShortHarqStart(ext, bitmap);
    var harq: Option<seq<Byte>> := None;
    if Bit(bitmap, 1) && q + 2 <= pEnd {
      var count := buf[q];
      if q + 2 + count <= pEnd && count <= lim.maxHarq {
        SubSlice(buf[..], p, pEnd, q - p + 2, q - p + 2 + count);
        assert buf[..][p..pEnd] == ext && buf[..][q + 2..q + 2 + count] == buf[q + 2..q + 2 + count];
        harq := Some(buf[q + 2..q + 2 + count]);
      }
      q := q + 2 + count;
    }
    assert harq == ShortHarq(ext, bitmap, lim);
    pdu := Some(Pucch01(head, if buf[p + 11] == 0 then 0 else 1, sr, harq));
  }

  method TakePucch234(buf: array<Byte>, p: nat, pEnd: nat, lim: Limits) returns (pdu: Option<UciPdu>)
    requires p + PDU_HEAD <= pEnd <= buf.Length && U16At(buf[p..pEnd], 0) == 2
    ensures pdu == PduOf(buf[p..pEnd], lim)
  {
    var q := p + PDU_HEAD;
    if q + 13 > pEnd {
      return None;
    }
    var head := ReadHead(buf, p, 13, pEnd);
    q := q + 13;
    var plan := Pucch234Plan(buf[p + 4], lim);
    var sr;
    sr, q := TakeSection(buf, p, q, pEnd, plan[0]);
    var harq, csi1, csi2 := TakeHarqAndCsi(buf, p, q, pEnd, plan[1..]);
    assert buf[p + 4] == buf[p..pEnd][4];
    pdu := Some(Pucch234(head, Format234(buf[p + 11]), ToSr(sr), ToField(harq), ToField(csi1), ToField(csi2)));
  }

  /** The body of the dispatch loop: the PDU in `buf[p..pEnd]`, read with a moving cursor. */
  method TakePdu(buf: array<Byte>, p: nat, pEnd: nat, lim: Limits) returns (pdu: Option<UciPdu>)
    requires p + PDU_HEAD <= pEnd <= buf.Length
    ensures pdu == PduOf(buf[p..pEnd], lim)
  {
    var kind := buf[p] as int + 0x100 * (buf[p + 1] as int);
    assert kind == U16At(buf[p..pEnd], 0);
    if kind == 0 {
      pdu := TakePusch(buf, p, pEnd, lim);
    } else if kind == 1 {
      pdu := TakePucch01(buf, p, pEnd, lim);
    } else if kind == 2 {
      pdu := TakePucch234(buf, p, pEnd, lim);
    } else {
      pdu := None;
    }
  }

  /** The fixed head of the PDU in `buf[p..pEnd]`, whose timing advance and RSSI start at offset `ta`. */
  method ReadHead(buf: array<Byte>, p: nat, ta: nat, ghost pEnd: nat) returns (head: Measured)
    requires 11 <= ta && p + ta + 4 <= pEnd <= buf.Length
    ensures var ext := buf[p..pEnd];
            head == Measured(U32At(ext, 5), U16At(ext, 9), NO_SINR, TimingAdvanceOf(U16At(ext, ta)), U16At(ext, ta + 2), NO_RSRP)
  {
    var b := buf[p..p + ta + 4];
    assert forall i :: 0 <= i < |b| ==> b[i] == buf[p..pEnd][i];
    head := Measured(U32At(b, 5), U16At(b, 9), NO_SINR, TimingAdvanceOf(U16At(b, ta)), U16At(b, ta + 2), NO_RSRP);
  }

  lemma Sections3(ext: seq<Byte>, q: nat, plan: seq<Slot>)
    requires ValidPlan(plan) && |plan| == 3
    ensures var q1 := After(ext, q, plan[0]); var q2 := After(ext, q1, plan[1]);
            Sections(ext, q, plan) == [SectionAt(ext, q, plan[0]), SectionAt(ext, q1, plan[1]), SectionAt(ext, q2, plan[2])]
  {
    var q1 := After(ext, q, plan[0]);
    var q2 := After(ext, q1, plan[1]);
    assert plan[2..][1..] == [] && plan[1..][1..] == plan[2..];
    assert Sections(ext, q2, plan[2..]) == [SectionAt(ext, q2, plan[2])] + Sections(ext, After(ext, q2, plan[2]), []);
    assert Sections(ext, q1, plan[1..]) == [SectionAt(ext, q1, plan[1])] + Sections(ext, q2, plan[2..]);
  }

  /** Once the PDU in `s[p..e]` is reported, what has been and what remains to be reported still make up `all`. */
  lemma WalkStep(s: seq<Byte>, p: nat, e: nat, n: nat, lim: Limits, slot: SlotPoint, pdu: Option<UciPdu>,
                 done: seq<UciIndication>, all: seq<UciIndication>)
    requires p <= |s| && 0 < n && Framed(s[p..]) && e == p + U16At(s[p..], 2)
    requires pdu == PduOf(s[p..e], lim)
    requires done + Reported(slot, Walk(s[p..], n, lim)) == all
    ensures (if pdu.Some? then done + [UciIndication(slot, pdu.value)] else done) + Reported(slot, Walk(s[e..], n - 1, lim)) == all
  {
    hide PduOf;
    assert s[p..][..U16At(s[p..], 2)] == s[p..e] && s[p..][U16At(s[p..], 2)..] == s[e..];
    var rest := Walk(s[e..], n - 1, lim);
    assert ([pdu] + rest)[1..] == rest;
    var r := Reported(slot, rest);
    if pdu.Some? {
      assert done + [UciIndication(slot, pdu.value)] + r == done + ([UciIndication(slot, pdu.value)] + r);
    } else {
      assert [] + r == r;
    }
  }

  lemma WalkEnd(s: seq<Byte>, n: nat, lim: Limits, slot: SlotPoint, done: seq<UciIndication>)
    requires n == 0 || !Framed(s)
    ensures done + Reported(slot, Walk(s, n, lim)) == done
  {
  }

  lemma CountedSnoc(c: Counters, done: seq<UciIndication>, u: UciIndication)
    ensures CountAllUci(c, done + [u]) == CountUci(CountAllUci(c, done), u)
  {
    assert (done + [u])[..|done|] == done;
  }

  /** The two guards in front of a PDU: its header, then its declared extent, must lie in the buffer. */
  method NextExtent(buf: array<Byte>, bufLen: nat, p: nat) returns (pEnd: Option<nat>)
    requires p <= bufLen <= buf.Length
    ensures pEnd == if Framed(buf[p..bufLen]) then Some(p + U16At(buf[p..bufLen], 2)) else None
  {
    if p + PDU_HEAD > bufLen {
      return None;
    }
    var size := buf[p + 2] as int + 0x100 * (buf[p + 3] as int);
    assert size == U16At(buf[p..bufLen], 2);
    if size < PDU_HEAD || p + size > bufLen {
      return None;
    }
    pEnd := Some(p + size);
  }

  /** dispatch_uci_indication. */
  method Dispatch(buf: array<Byte>, bufLen: nat, numerology: nat, lim: Limits, n: Notifier, m: Metrics)
    requires bufLen <= buf.Length
    modifies n`uci, m
    ensures n.uci == old(n.uci) + Notifications(buf[..bufLen], numerology, lim)
    ensures m.now == CountAllUci(old(m.now), Notifications(buf[..bufLen], numerology, lim))
  {
    if bufLen < MESSAGE_HEAD {
      return;
    }
    var head := buf[..MESSAGE_HEAD];
    assert head == buf[..bufLen][..MESSAGE_HEAD] && buf[..bufLen][MESSAGE_HEAD..] == buf[MESSAGE_HEAD..bufLen];
    DispatchAll(buf, bufLen, SlotOf(head, numerology), U16At(head, 12), lim, n, m);
  }

  /** The dispatch loop, from the first PDU header on. */
  method DispatchAll(buf: array<Byte>, bufLen: nat, slot: SlotPoint, nofPdus: nat, lim: Limits, n: Notifier, m: Metrics)
    requires MESSAGE_HEAD <= bufLen <= buf.Length
    modifies n`uci, m
    ensures var all := Reported(slot, Walk(buf[MESSAGE_HEAD..bufLen], nofPdus, lim));
            n.uci == old(n.uci) + all && m.now == CountAllUci(old(m.now), all)
  {
    hide PduOf, Walk, Reported, CountAllUci, CountUci, KindOf;
    ghost var s := buf[..bufLen];
    ghost var all := Reported(slot, Walk(s[MESSAGE_HEAD..], nofPdus, lim));
    ghost var done: seq<UciIndication> := [];
    assert s[MESSAGE_HEAD..] == buf[MESSAGE_HEAD..bufLen];
    NothingDone(m.now, all);
    var p: int := MESSAGE_HEAD;
    var i := 0;
    while i != nofPdus
      invariant 0 <= i <= nofPdus && MESSAGE_HEAD <= p <= bufLen
      invariant done + Reported(slot, Walk(s[p..], nofPdus - i, lim)) == all
      invariant n.uci == old(n.uci) + done && m.now == CountAllUci(old(m.now), done)
      decreases nofPdus - i
    {
      var pEnd := NextExtent(buf, bufLen, p);
      assert buf[p..bufLen] == s[p..];
      if pEnd == None {
        break;
      }
      var pdu := TakePdu(buf, p, pEnd.value, lim);
      assert s[p..pEnd.value] == buf[p..pEnd.value];
      WalkStep(s, p, pEnd.value, nofPdus - i, lim, slot, pdu, done, all);
      if pdu.Some? {
        Report(n, m, UciIndication(slot, pdu.value));
        CountedSnoc(old(m.now), done, UciIndication(slot, pdu.value));
        done := done + [UciIndication(slot, pdu.value)];
      }
      p := pEnd.value;
      i := i + 1;
    }
    WalkEnd(s[p..], nofPdus - i, lim, slot, done);
  }

  lemma NothingDone(c: Counters, all: seq<UciIndication>)
    ensures CountAllUci(c, []) == c && [] + all == all
  {
  }

  /** on_uci_indication and the counters beside it. */
  method Report(n: Notifier, m: Metrics, u: UciIndication)
    modifies n`uci, m
    ensures n.uci == old(n.uci) + [u] && m.now == CountUci(old(m.now), u)
  {
    n.uci := n.uci + [u];
    m.now := m.now.(uciTotal := Bump(m.now.uciTotal, 1));
    match KindOf(u)
    case OnPusch => m.now := m.now.(uciPusch := Bump(m.now.uciPusch, 1));
    case OnPucch01 => m.now := m.now.(uciPucch01 := Bump(m.now.uciPucch01, 1));
    case OnPucch234 => m.now := m.now.(uciPucch234 := Bump(m.now.uciPucch234, 1));
  }
}
