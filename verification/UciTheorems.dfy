/** What the UCI.indication dispatcher promises: it inverts the packed layout, it keeps PDUs apart, and it
    finds its place again after a bad section. */
module UciTheorems {
  import opened Wire
  import opened Bits
  import opened Reports
  import opened UciIndication

  // ================================================================ round trip

  // ---------------------------------------------------------------- the sender

  /** The sender's side of the fixed PDU head; `unused` are the bits of the bitmap that name no section. */
  datatype WireHead = WireHead(unused: Byte, handle: U32, rnti: U16, cqi: Byte, timingAdvance: U16, rssi: U16)

  /** A PDU as the sender has it: what it sends is there. */
  datatype WirePdu =
    | WirePusch(head: WireHead, harq: Option<Section>, csi1: Option<Section>, csi2: Option<Section>)
    | WirePucch01(head: WireHead, format: Byte, sr: Option<ShortSrSection>, shortHarq: Option<ShortHarqSection>)
    | WirePucch234(head: WireHead, format: Byte, srBits: Option<seq<bool>>, harq: Option<Section>, csi1: Option<Section>, csi2: Option<Section>)
    | WireOther(kind: U16, body: seq<Byte>)

  datatype ShortSrSection = ShortSrSection(indication: Byte, confidence: Byte)

  datatype ShortHarqSection = ShortHarqSection(confidence: Byte, values: seq<Byte>)

  /** A payload its receiver can hold and its length field can count. */
  predicate Holdable(bits: seq<bool>, limit: nat)
  {
    |bits| <= limit && |bits| < 0x1_0000
  }

  predicate Sendable(s: Option<Section>, limit: nat)
  {
    s.Some? ==> Holdable(s.value.bits, limit)
  }

  predicate WellFormed(w: WirePdu, lim: Limits)
  {
    match w
    case WirePusch(h, a, b, c) =>
      h.unused % 16 < 2 && Sendable(a, lim.maxPayloadBits) && Sendable(b, lim.maxPayloadBits) && Sendable(c, lim.maxPayloadBits)
    case WirePucch01(h, _, sr, harq) =>
      h.unused % 4 == 0 && (harq.Some? ==> |harq.value.values| <= lim.maxHarq && |harq.value.values| < 0x100)
    case WirePucch234(h, _, sr, a, b, c) =>
      && h.unused % 16 == 0 && (sr.Some? ==> Holdable(sr.value, lim.maxSrBits))
      && Sendable(a, lim.maxPayloadBits) && Sendable(b, lim.maxPayloadBits) && Sendable(c, lim.maxPayloadBits)
    case WireOther(kind, body) => kind > 2 && |body| < 0xFFFC
  }

  /** The bitmap: 1 for SR, 2 for HARQ, 4 for CSI part 1, 8 for CSI part 2. */
  function BitmapOf(w: WirePdu, lim: Limits): Byte
    requires WellFormed(w, lim) && !w.WireOther?
  {
    match w
    case WirePusch(h, a, b, c) =>
      h.unused + (if a.Some? then 2 else 0) + (if b.Some? then 4 else 0) + (if c.Some? then 8 else 0)
    case WirePucch01(h, _, sr, harq) =>
      h.unused + (if sr.Some? then 1 else 0) + (if harq.Some? then 2 else 0)
    case WirePucch234(h, _, sr, a, b, c) =>
      h.unused + (if sr.Some? then 1 else 0) + (if a.Some? then 2 else 0) + (if b.Some? then 4 else 0) + (if c.Some? then 8 else 0)
  }

  /** A bit length and the bits, low bit first. */
  function BitsBytes(bits: seq<bool>): seq<Byte>
    requires |bits| < 0x1_0000
  {
    Le16(|bits|) + Pack(LsbFirst, bits, (|bits| + 7) / 8)
  }

  function FieldBytesOf(s: Option<Section>): seq<Byte>
    requires s.Some? ==> |s.value.bits| < 0x1_0000
  {
    if s.None? then [] else [s.value.status] + BitsBytes(s.value.bits)
  }

  function PuschHeadBytes(bitmap: Byte, h: WireHead): (b: seq<Byte>)
    ensures |b| == 12
  {
    [bitmap] + Le32(h.handle) + Le16(h.rnti) + [h.cqi] + Le16(h.timingAdvance) + Le16(h.rssi)
  }

  function PucchHeadBytes(bitmap: Byte, h: WireHead, format: Byte): (b: seq<Byte>)
    ensures |b| == 13
  {
    [bitmap] + Le32(h.handle) + Le16(h.rnti) + [format, h.cqi] + Le16(h.timingAdvance) + Le16(h.rssi)
  }

  function ShortBytes(sr: Option<ShortSrSection>, harq: Option<ShortHarqSection>): seq<Byte>
    requires harq.Some? ==> |harq.value.values| < 0x100
  {
    (if sr.Some? then [sr.value.indication, sr.value.confidence] else [])
    + (if harq.Some? then [|harq.value.values|, harq.value.confidence] + harq.value.values else [])
  }

  function TypeOf(w: WirePdu): U16
  {
    match w
    case WirePusch(_, _, _, _) => 0
    case WirePucch01(_, _, _, _) => 1
    case WirePucch234(_, _, _, _, _, _) => 2
    case WireOther(kind, _) => kind
  }

  /** What follows the fixed head: the sections sent, in the order SR, HARQ, CSI part 1, CSI part 2. */
  function TailBytes(w: WirePdu, lim: Limits): seq<Byte>
    requires WellFormed(w, lim) && !w.WireOther?
  {
    match w
    case WirePusch(_, a, b, c) => FieldBytesOf(a) + FieldBytesOf(b) + FieldBytesOf(c)
    case WirePucch01(_, _, sr, harq) => ShortBytes(sr, harq)
    case WirePucch234(_, _, sr, a, b, c) =>
      (if sr.Some? then BitsBytes(sr.value) else []) + FieldBytesOf(a) + FieldBytesOf(b) + FieldBytesOf(c)
  }

  function BodyBytes(w: WirePdu, lim: Limits): seq<Byte>
    requires WellFormed(w, lim)
  {
    if w.WireOther? then w.body
    else if w.WirePusch? then PuschHeadBytes(BitmapOf(w, lim), w.head) + TailBytes(w, lim)
    else PucchHeadBytes(BitmapOf(w, lim), w.head, w.format) + TailBytes(w, lim)
  }

  lemma TailBound(w: WirePdu, lim: Limits)
    requires WellFormed(w, lim) && !w.WireOther?
    ensures |TailBytes(w, lim)| <= 4 * 8195
  {
    if w.WirePusch? || w.WirePucch234? {
      FieldBound(w.harq);
      FieldBound(w.csi1);
      FieldBound(w.csi2);
    }
  }

  lemma FieldBound(s: Option<Section>)
    requires s.Some? ==> |s.value.bits| < 0x1_0000
    ensures |FieldBytesOf(s)| <= 8195
  {
  }

  lemma BodyBound(w: WirePdu, lim: Limits)
    requires WellFormed(w, lim)
    ensures |BodyBytes(w, lim)| + PDU_HEAD < 0x1_0000
  {
    hide TailBytes;
    if !w.WireOther? {
      TailBound(w, lim);
    }
  }

  function AllPduBytes(ws: seq<WirePdu>, lim: Limits): seq<Byte>
    requires forall i :: 0 <= i < |ws| ==> WellFormed(ws[i], lim)
  {
    if ws == [] then [] else PduBytes(ws[0], lim) + AllPduBytes(ws[1..], lim)
  }

  function MessageBytes(envelope: seq<Byte>, sfn: U16, slot: U16, ws: seq<WirePdu>, lim: Limits): seq<Byte>
    requires |envelope| == 8 && |ws| < 0x1_0000
    requires forall i :: 0 <= i < |ws| ==> WellFormed(ws[i], lim)
  {
    envelope + Le16(sfn) + Le16(slot) + Le16(|ws|) + AllPduBytes(ws, lim)
  }

  function Head(h: WireHead): Measured
  {
    Measured(h.handle, h.rnti, -32768, if h.timingAdvance == 65535 then None else Some(h.timingAdvance), h.rssi, 65535)
  }

  function FieldMeant(s: Option<Section>): Option<UciField>
  {
    if s.None? then None
    else
      var status := s.value.status;
      Some(UciField(if status == 0 then CrcPass else if status == 1 then CrcFailure else if status == 2 then Dtx
                    else if status == 3 then NoDtx else DtxNotChecked,
                    |s.value.bits|, s.value.bits))
  }

  /** What the sender means the receiver to be told; of a PDU of another kind, nothing. */
  function Meaning(w: WirePdu): UciPdu
    requires !w.WireOther?
  {
    match w
    case WirePusch(h, a, b, c) => Pusch(Head(h), FieldMeant(a), FieldMeant(b), FieldMeant(c))
    case WirePucch01(h, f, sr, harq) =>
      Pucch01(Head(h), if f == 0 then 0 else 1,
              if sr.Some? then Some(sr.value.indication != 0) else None,
              if harq.Some? then Some(harq.value.values) else None)
    case WirePucch234(h, f, sr, a, b, c) =>
      Pucch234(Head(h), match f case 0 => 2 case 1 => 3 case _ => 4, sr, FieldMeant(a), FieldMeant(b), FieldMeant(c))
  }

  // ---------------------------------------------------------------- sections by plan

  predicate Fits(s: Option<Section>, slot: Slot)
  {
    && s.Some? == slot.named
    && (s.Some? ==> |s.value.bits| <= slot.limit && |s.value.bits| < 0x1_0000 && (slot.head == 2 ==> s.value.status == 0))
  }

  predicate AllFit(ss: seq<Option<Section>>, plan: seq<Slot>)
  {
    |ss| == |plan| && forall i :: 0 <= i < |plan| ==> Fits(ss[i], plan[i])
  }

  function SectionBytes(slot: Slot, s: Option<Section>): seq<Byte>
    requires s.Some? ==> |s.value.bits| < 0x1_0000
  {
    match s
    case None => []
    case Some(x) =>
      (if slot.head == 3 then [x.status] else []) + Le16(|x.bits|) + Pack(LsbFirst, x.bits, BytesFor(|x.bits|))
  }

  function SectionsBytes(plan: seq<Slot>, ss: seq<Option<Section>>): seq<Byte>
    requires AllFit(ss, plan)
  {
    if plan == [] then [] else SectionBytes(plan[0], ss[0]) + SectionsBytes(plan[1..], ss[1..])
  }

  /** One encoded section, wherever it stands. */
  lemma SectionBack(pre: seq<Byte>, slot: Slot, s: Option<Section>, post: seq<Byte>)
    requires slot.Valid() && Fits(s, slot)
    ensures var ext := pre + SectionBytes(slot, s) + post;
            SectionAt(ext, |pre|, slot) == s && After(ext, |pre|, slot) == |pre| + |SectionBytes(slot, s)|
  {
    if s.Some? {
      hide Unpack, Pack;
      var x, n, q := s.value, |s.value.bits|, |pre|;
      var status := if slot.head == 3 then [x.status] else [];
      var body := Pack(LsbFirst, x.bits, BytesFor(n));
      var ext := pre + SectionBytes(slot, s) + post;
      assert ext == (pre + status) + Le16(n) + (body + post);
      U16Back(pre + status, n, body + post);
      assert BitLength(ext, q, slot.head) == n;
      assert ext == (pre + status + Le16(n)) + body + post;
      Middle(pre + status + Le16(n), body, post);
      assert slot.head == 3 ==> ext[q] == x.status;
      PackRoundTrip(LsbFirst, x.bits, BytesFor(n));
    }
  }

  lemma SectionsUnfold(ext: seq<Byte>, q: nat, plan: seq<Slot>)
    requires ValidPlan(plan) && plan != []
    ensures Sections(ext, q, plan) == [SectionAt(ext, q, plan[0])] + Sections(ext, After(ext, q, plan[0]), plan[1..])
  {
  }

  lemma OversizeDropped(ext: seq<Byte>, q: nat, slot: Slot)
    requires slot.Valid() && q + slot.head <= |ext| && BitLength(ext, q, slot.head) > slot.limit
    ensures SectionAt(ext, q, slot) == None
    ensures slot.named ==> After(ext, q, slot) == q + Declared(ext, q, slot.head)
  {
  }

  lemma SectionsNil(ext: seq<Byte>, q: nat)
    ensures Sections(ext, q, []) == []
  {
  }

  lemma {:induction false} SectionsBack(pre: seq<Byte>, plan: seq<Slot>, ss: seq<Option<Section>>)
    requires ValidPlan(plan) && AllFit(ss, plan)
    ensures Sections(pre + SectionsBytes(plan, ss), |pre|, plan) == ss
    decreases |plan|
  {
    hide Sections, SectionAt, After, SectionBytes;
    if plan != [] {
      var first, rest := SectionBytes(plan[0], ss[0]), SectionsBytes(plan[1..], ss[1..]);
      SectionBack(pre, plan[0], ss[0], rest);
      assert pre + (first + rest) == pre + first + rest;
      SectionsBack(pre + first, plan[1..], ss[1..]);
      SectionsUnfold(pre + SectionsBytes(plan, ss), |pre|, plan);
      assert |pre + first| == |pre| + |first|;
      assert [ss[0]] + ss[1..] == ss;
    } else {
      SectionsNil(pre + SectionsBytes(plan, ss), |pre|);
    }
  }

  function Frame(w: WirePdu, lim: Limits): (f: seq<Byte>)
    requires WellFormed(w, lim)
    ensures |f| == PDU_HEAD && U16At(f, 0) == TypeOf(w) && U16At(f, 2) == |BodyBytes(w, lim)| + PDU_HEAD
  {
    BodyBound(w, lim);
    var n := |BodyBytes(w, lim)| + PDU_HEAD;
    U16Back([], TypeOf(w), Le16(n));
    assert [] + Le16(TypeOf(w)) + Le16(n) == Le16(TypeOf(w)) + Le16(n);
    U16Back(Le16(TypeOf(w)), n, []);
    assert Le16(TypeOf(w)) + Le16(n) + [] == Le16(TypeOf(w)) + Le16(n);
    Le16(TypeOf(w)) + Le16(n)
  }

  function PduBytes(w: WirePdu, lim: Limits): seq<Byte>
    requires WellFormed(w, lim)
  {
    Frame(w, lim) + BodyBytes(w, lim)
  }

  /** The bits of the bitmap, as the receiver takes them. */
  lemma BitmapBack(w: WirePdu, lim: Limits)
    requires WellFormed(w, lim) && !w.WireOther?
    ensures var b := BitmapOf(w, lim);
            match w
            case WirePusch(_, harq, csi1, csi2) => Bit(b, 1) == harq.Some? && Bit(b, 2) == csi1.Some? && Bit(b, 3) == csi2.Some?
            case WirePucch01(_, _, sr, harq) => Bit(b, 0) == sr.Some? && Bit(b, 1) == harq.Some?
            case WirePucch234(_, _, sr, harq, csi1, csi2) =>
              Bit(b, 0) == sr.Some? && Bit(b, 1) == harq.Some? && Bit(b, 2) == csi1.Some? && Bit(b, 3) == csi2.Some?
  {
    hide Bit;
    var unused := w.head.unused;
    if w.WirePucch01? {
      LowBits(w.sr.Some?, w.shortHarq.Some?, unused / 4);
    } else if w.WirePusch? {
      LowBits(unused % 16 == 1, w.harq.Some?, Join(w.csi1.Some?, w.csi2.Some?, unused / 16));
      LowBits(w.csi1.Some?, w.csi2.Some?, unused / 16);
    } else {
      LowBits(w.srBits.Some?, w.harq.Some?, Join(w.csi1.Some?, w.csi2.Some?, unused / 16));
      LowBits(w.csi1.Some?, w.csi2.Some?, unused / 16);
    }
  }

  /** The number with `p` and `q` as its two lowest bits. */
  function Join(p: bool, q: bool, rest: nat): nat
  {
    (if p then 1 else 0) + (if q then 2 else 0) + 4 * rest
  }

  lemma LowBits(p: bool, q: bool, rest: nat)
    ensures var b := Join(p, q, rest); Bit(b, 0) == p && Bit(b, 1) == q && Bit(b, 2) == Bit(rest, 0) && Bit(b, 3) == Bit(rest, 1)
  {
    var b := Join(p, q, rest);
    var half := (if q then 1 else 0) + 2 * rest;
    HalfOf(if p then 1 else 0, half);
    HalfOf(if q then 1 else 0, rest);
    assert b == (if p then 1 else 0) + 2 * half;
    assert Bit(b, 1) == Bit(half, 0) && Bit(b, 2) == Bit(half, 1) && Bit(b, 3) == Bit(half, 2);
    assert Bit(half, 1) == Bit(rest, 0) && Bit(half, 2) == Bit(rest, 1);
  }

  lemma FourBits(b: Byte)
    ensures Bit(b, 0) == (b % 2 == 1) && Bit(b, 1) == (b / 2 % 2 == 1) && Bit(b, 2) == (b / 4 % 2 == 1) && Bit(b, 3) == (b / 8 % 2 == 1)
  {
    assert Bit(b, 1) == Bit(b / 2, 0) && Bit(b / 2, 1) == Bit(b / 2 / 2, 0) && Bit(b / 2 / 2, 1) == Bit(b / 2 / 2 / 2, 0);
    assert b / 2 / 2 == b / 4 && b / 4 / 2 == b / 8;
  }

  function SrSection(sr: Option<seq<bool>>): Option<Section>
  {
    if sr.None? then None else Some(Section(0, sr.value))
  }

  lemma FieldOnPlan(s: Option<Section>, limit: nat)
    requires Sendable(s, limit)
    ensures SectionBytes(Slot(s.Some?, 3, limit), s) == FieldBytesOf(s) && Fits(s, Slot(s.Some?, 3, limit)) && ToField(s) == FieldMeant(s)
  {
    hide Pack;
  }

  lemma SrOnPlan(sr: Option<seq<bool>>, limit: nat)
    requires sr.Some? ==> Holdable(sr.value, limit)
    ensures var s, slot := SrSection(sr), Slot(sr.Some?, 2, limit);
            && Fits(s, slot) && SectionBytes(slot, s) == (if sr.Some? then BitsBytes(sr.value) else []) && ToSr(s) == sr
  {
    hide Pack;
  }

  lemma ThreeSections(plan: seq<Slot>, ss: seq<Option<Section>>)
    requires |plan| == 3 && AllFit(ss, plan)
    ensures SectionsBytes(plan, ss) == SectionBytes(plan[0], ss[0]) + SectionBytes(plan[1], ss[1]) + SectionBytes(plan[2], ss[2])
  {
    hide SectionBytes;
    assert plan[1..][1..] == plan[2..] && ss[1..][1..] == ss[2..];
    assert plan[2..][1..] == [] && ss[2..][1..] == [];
    assert SectionsBytes(plan[2..], ss[2..]) == SectionBytes(plan[2], ss[2]) + SectionsBytes([], []);
  }

  /** The three sections a PUSCH or PUCCH 2/3/4 PDU may end with, as the receiver's plan has them. */
  lemma FieldsOnPlan(bitmap: Byte, a: Option<Section>, b: Option<Section>, c: Option<Section>, lim: Limits)
    requires Bit(bitmap, 1) == a.Some? && Bit(bitmap, 2) == b.Some? && Bit(bitmap, 3) == c.Some?
    requires Sendable(a, lim.maxPayloadBits) && Sendable(b, lim.maxPayloadBits) && Sendable(c, lim.maxPayloadBits)
    ensures AllFit([a, b, c], PuschPlan(bitmap, lim))
    ensures SectionsBytes(PuschPlan(bitmap, lim), [a, b, c]) == FieldBytesOf(a) + FieldBytesOf(b) + FieldBytesOf(c)
    ensures ToField(a) == FieldMeant(a) && ToField(b) == FieldMeant(b) && ToField(c) == FieldMeant(c)
  {
    hide SectionBytes, SectionsBytes, FieldBytesOf, FieldMeant, ToField, Fits, Bit;
    FieldOnPlan(a, lim.maxPayloadBits);
    FieldOnPlan(b, lim.maxPayloadBits);
    FieldOnPlan(c, lim.maxPayloadBits);
    ThreeSections(PuschPlan(bitmap, lim), [a, b, c]);
  }

  lemma PuschBack(w: WirePdu, lim: Limits)
    requires WellFormed(w, lim) && w.WirePusch?
    ensures PduOf(PduBytes(w, lim), lim) == Some(Meaning(w))
  {
    hide Sections, SectionsBytes, PuschPlan, ToField, FieldMeant, FieldBytesOf, PuschHead, PuschHeadBytes, Head, Frame, Bit, BitmapOf;
    var bitmap := BitmapOf(w, lim);
    var frame, head, plan, ss := Frame(w, lim), PuschHeadBytes(bitmap, w.head), PuschPlan(bitmap, lim), [w.harq, w.csi1, w.csi2];
    BitmapBack(w, lim);
    FieldsOnPlan(bitmap, w.harq, w.csi1, w.csi2, lim);
    var tail := SectionsBytes(plan, ss);
    Regroup(frame, head, tail);
    PuschHeadBack(frame, bitmap, w.head, tail);
    SectionsBack(frame + head, plan, ss);
    TypeBack(frame, head + tail);
  }

  lemma {:induction false} Pucch01Back(w: WirePdu, lim: Limits)
    requires WellFormed(w, lim) && w.WirePucch01?
    ensures PduOf(PduBytes(w, lim), lim) == Some(Meaning(w))
  {
    hide ShortSr, ShortHarq, ShortBytes, PucchHead, PucchHeadBytes, Head, Frame, Bit, BitmapOf;
    var bitmap := BitmapOf(w, lim);
    var frame, head, tail := Frame(w, lim), PucchHeadBytes(bitmap, w.head, w.format), ShortBytes(w.sr, w.shortHarq);
    BitmapBack(w, lim);
    Regroup(frame, head, tail);
    PucchHeadBack(frame, bitmap, w.head, w.format, tail);
    ShortBack(frame + head, bitmap, w.sr, w.shortHarq, lim);
    TypeBack(frame, head + tail);
  }

  lemma SrAndFieldsOnPlan(bitmap: Byte, sr: Option<seq<bool>>, a: Option<Section>, b: Option<Section>, c: Option<Section>, lim: Limits)
    requires Bit(bitmap, 0) == sr.Some? && Bit(bitmap, 1) == a.Some? && Bit(bitmap, 2) == b.Some? && Bit(bitmap, 3) == c.Some?
    requires sr.Some? ==> Holdable(sr.value, lim.maxSrBits)
    requires Sendable(a, lim.maxPayloadBits) && Sendable(b, lim.maxPayloadBits) && Sendable(c, lim.maxPayloadBits)
    ensures var plan, ss := Pucch234Plan(bitmap, lim), [SrSection(sr), a, b, c];
            && AllFit(ss, plan) && ToSr(SrSection(sr)) == sr
            && SectionsBytes(plan, ss)
               == (if sr.Some? then BitsBytes(sr.value) else []) + FieldBytesOf(a) + FieldBytesOf(b) + FieldBytesOf(c)
    ensures ToField(a) == FieldMeant(a) && ToField(b) == FieldMeant(b) && ToField(c) == FieldMeant(c)
  {
    hide PuschPlan, SectionBytes, FieldBytesOf, BitsBytes, FieldMeant, ToField, ToSr, Fits, Bit;
    var plan, ss := Pucch234Plan(bitmap, lim), [SrSection(sr), a, b, c];
    FieldsOnPlan(bitmap, a, b, c, lim);
    SrOnPlan(sr, lim.maxSrBits);
    assert plan[1..] == PuschPlan(bitmap, lim) && ss[1..] == [a, b, c];
    forall i | 0 <= i < 4 ensures Fits(ss[i], plan[i]) {
      if i > 0 {
        assert Fits(ss[1..][i - 1], plan[1..][i - 1]);
      }
    }
  }

  lemma Pucch234Back(w: WirePdu, lim: Limits)
    requires WellFormed(w, lim) && w.WirePucch234?
    ensures PduOf(PduBytes(w, lim), lim) == Some(Meaning(w))
  {
    hide Sections, SectionsBytes, Pucch234Plan, ToField, ToSr, FieldMeant, FieldBytesOf, BitsBytes, PucchHead, PucchHeadBytes, Head, Frame, Bit;
    hide BitmapOf;
    var bitmap := BitmapOf(w, lim);
    var frame, head, plan := Frame(w, lim), PucchHeadBytes(bitmap, w.head, w.format), Pucch234Plan(bitmap, lim);
    var ss := [SrSection(w.srBits), w.harq, w.csi1, w.csi2];
    BitmapBack(w, lim);
    SrAndFieldsOnPlan(bitmap, w.srBits, w.harq, w.csi1, w.csi2, lim);
    var tail := SectionsBytes(plan, ss);
    Regroup(frame, head, tail);
    PucchHeadBack(frame, bitmap, w.head, w.format, tail);
    SectionsBack(frame + head, plan, ss);
    TypeBack(frame, head + tail);
  }

  lemma TypeBack(frame: seq<Byte>, post: seq<Byte>)
    requires |frame| == PDU_HEAD
    ensures U16At(frame + post, 0) == U16At(frame, 0) && U16At(frame + post, 2) == U16At(frame, 2)
  {
  }

  function MeantBy(w: WirePdu): Option<UciPdu>
  {
    if w.WireOther? then None else Some(Meaning(w))
  }

  lemma {:induction false} PduBack(w: WirePdu, lim: Limits)
    requires WellFormed(w, lim)
    ensures PduOf(PduBytes(w, lim), lim) == MeantBy(w)
  {
    match w
    case WirePusch(_, _, _, _) => PuschBack(w, lim);
    case WirePucch01(_, _, _, _) => Pucch01Back(w, lim);
    case WirePucch234(_, _, _, _, _, _) => Pucch234Back(w, lim);
    case WireOther(_, _) =>
      hide Frame;
      TypeBack(Frame(w, lim), BodyBytes(w, lim));
  }

  lemma PuschHeadBack(frame: seq<Byte>, bitmap: Byte, h: WireHead, post: seq<Byte>)
    requires |frame| == 4
    ensures var ext := frame + PuschHeadBytes(bitmap, h) + post; PuschHead(ext) == Head(h) && ext[4] == bitmap
  {
    var ext := frame + PuschHeadBytes(bitmap, h) + post;
    assert forall i :: 0 <= i < 12 ==> ext[4 + i] == PuschHeadBytes(bitmap, h)[i];
    JoinWord(h.handle);
  }

  lemma PucchHeadBack(frame: seq<Byte>, bitmap: Byte, h: WireHead, f: Byte, post: seq<Byte>)
    requires |frame| == 4
    ensures var ext := frame + PucchHeadBytes(bitmap, h, f) + post;
            PucchHead(ext) == Head(h) && ext[4] == bitmap && ext[11] == f
  {
    var ext := frame + PucchHeadBytes(bitmap, h, f) + post;
    assert forall i :: 0 <= i < 13 ==> ext[4 + i] == PucchHeadBytes(bitmap, h, f)[i];
    JoinWord(h.handle);
  }

  lemma ShortBack(pre: seq<Byte>, bitmap: Byte, sr: Option<ShortSrSection>, harq: Option<ShortHarqSection>, lim: Limits)
    requires |pre| == PUCCH_SECTIONS
    requires sr.Some? == Bit(bitmap, 0) && harq.Some? == Bit(bitmap, 1)
    requires harq.Some? ==> |harq.value.values| <= lim.maxHarq && |harq.value.values| < 0x100
    ensures var ext := pre + ShortBytes(sr, harq);
            && ShortSr(ext, bitmap) == (if sr.Some? then Some(sr.value.indication != 0) else None)
            && ShortHarq(ext, bitmap, lim) == (if harq.Some? then Some(harq.value.values) else None)
  {
    var ext := pre + ShortBytes(sr, harq);
    var q := ShortHarqStart(ext, bitmap);
    if harq.Some? {
      var v := harq.value.values;
      assert ext[q] == |v|;
      assert ext[q + 2..q + 2 + |v|] == v;
    }
  }

  lemma {:induction false} WalkBack(ws: seq<WirePdu>, post: seq<Byte>, lim: Limits)
    requires forall i :: 0 <= i < |ws| ==> WellFormed(ws[i], lim)
    ensures Walk(AllPduBytes(ws, lim) + post, |ws|, lim) == seq(|ws|, i requires 0 <= i < |ws| => MeantBy(ws[i]))
  {
    hide PduOf, BodyBytes, MeantBy, WellFormed, Frame;
    if ws != [] {
      var b := PduBytes(ws[0], lim);
      var rest := AllPduBytes(ws[1..], lim) + post;
      assert AllPduBytes(ws, lim) + post == b + rest;
      TypeBack(Frame(ws[0], lim), BodyBytes(ws[0], lim) + rest);
      assert b + rest == Frame(ws[0], lim) + (BodyBytes(ws[0], lim) + rest);
      assert (b + rest)[..|b|] == b && (b + rest)[|b|..] == rest;
      PduBack(ws[0], lim);
      WalkBack(ws[1..], post, lim);
    }
  }

  /** The notifications meant: one per PDU of a known kind, in order. */
  function Meant(slot: SlotPoint, ws: seq<WirePdu>): seq<Reports.UciIndication>
  {
    if ws == [] then [] else (if ws[0].WireOther? then [] else [UciIndication(slot, Meaning(ws[0]))]) + Meant(slot, ws[1..])
  }

  lemma {:induction false} ReportedMeant(slot: SlotPoint, ws: seq<WirePdu>)
    ensures Reported(slot, seq(|ws|, i requires 0 <= i < |ws| => MeantBy(ws[i]))) == Meant(slot, ws)
  {
    hide Meaning;
    if ws != [] {
      ReportedMeant(slot, ws[1..]);
      var w := seq(|ws|, i requires 0 <= i < |ws| => MeantBy(ws[i]));
      assert w[1..] == seq(|ws[1..]|, i requires 0 <= i < |ws[1..]| => MeantBy(ws[1..][i]));
    }
  }

  /** Whatever well-formed PDUs are sent, in whatever envelope and with whatever follows them, the receiver is told exactly
      what each PDU of a known kind means, one notification per PDU, in order; those of other kinds are stepped over. */
  lemma RoundTrip(envelope: seq<Byte>, sfn: U16, slot: U16, ws: seq<WirePdu>, post: seq<Byte>, numerology: nat, lim: Limits)
    requires |envelope| == 8 && |ws| < 0x1_0000
    requires forall i :: 0 <= i < |ws| ==> WellFormed(ws[i], lim)
    ensures Notifications(MessageBytes(envelope, sfn, slot, ws, lim) + post, numerology, lim) == Meant(SlotPoint(numerology, sfn, slot), ws)
  {
    hide PduOf, MeantBy, Meant, WellFormed, Walk, Reported, AllPduBytes, Le16, U16At, Notifications, SlotOf;
    var all := AllPduBytes(ws, lim);
    Regroup(envelope + Le16(sfn) + Le16(slot) + Le16(|ws|), all, post);
    MessageRead(envelope, sfn, slot, |ws|, all + post, numerology, lim);
    WalkBack(ws, post, lim);
    ReportedMeant(SlotPoint(numerology, sfn, slot), ws);
  }

  lemma MessageRead(envelope: seq<Byte>, sfn: U16, slot: U16, n: U16, body: seq<Byte>, numerology: nat, lim: Limits)
    requires |envelope| == 8
    ensures Notifications(envelope + Le16(sfn) + Le16(slot) + Le16(n) + body, numerology, lim)
            == Reported(SlotPoint(numerology, sfn, slot), Walk(body, n, lim))
  {
    hide Walk, Reported;
    MessageHeadBack(envelope, sfn, slot, n, body);
  }

  // ================================================================ truncation

  lemma {:induction false} WalkTruncates(s: seq<Byte>, c: nat, n: nat, lim: Limits)
    requires c <= |s|
    ensures Walk(s[..c], n, lim) <= Walk(s, n, lim)
    decreases n
  {
    hide PduOf;
    var t := s[..c];
    if n > 0 && Framed(t) {
      var e := U16At(s, 2);
      assert U16At(t, 2) == e && t[..e] == s[..e] && t[e..] == s[e..][..c - e];
      WalkTruncates(s[e..], c - e, n - 1, lim);
    }
  }

  lemma {:induction false} ReportedPrefix(slot: SlotPoint, a: seq<Option<UciPdu>>, b: seq<Option<UciPdu>>)
    requires a <= b
    ensures Reported(slot, a) <= Reported(slot, b)
  {
    if a != [] {
      ReportedPrefix(slot, a[1..], b[1..]);
    }
  }

  /** Cutting a message anywhere leaves a prefix of its notifications: a PDU is reported whole or not at all. */
  lemma Truncation(s: seq<Byte>, c: nat, numerology: nat, lim: Limits)
    requires c <= |s|
    ensures Notifications(s[..c], numerology, lim) <= Notifications(s, numerology, lim)
  {
    hide Walk, Reported;
    if MESSAGE_HEAD <= c {
      assert forall i :: 0 <= i < c ==> s[..c][i] == s[i];
      assert s[..c][MESSAGE_HEAD..] == s[MESSAGE_HEAD..][..c - MESSAGE_HEAD];
      var n, t := U16At(s, 12), s[MESSAGE_HEAD..];
      WalkTruncates(t, c - MESSAGE_HEAD, n, lim);
      ReportedPrefix(SlotOf(s, numerology), Walk(t[..c - MESSAGE_HEAD], n, lim), Walk(t, n, lim));
    }
  }

  // ================================================================ locality

  /** Where the k-th PDU of the walk starts; it is framed there. */
  function StartOf(s: seq<Byte>, n: nat, lim: Limits, k: nat): (at: nat)
    requires k < |Walk(s, n, lim)|
    ensures at <= |s| && Framed(s[at..])
  {
    if k == 0 then
      assert s[0..] == s;
      0
    else
      var e := U16At(s, 2);
      var rest := StartOf(s[e..], n - 1, lim, k - 1);
      assert s[e..][rest..] == s[e + rest..];
      e + rest
  }

  /** Byte `i` of the stream belongs to the payload of the k-th PDU. */
  predicate InPayload(s: seq<Byte>, n: nat, lim: Limits, k: nat, i: nat)
    requires k < |Walk(s, n, lim)|
  {
    var at := StartOf(s, n, lim, k);
    at + PDU_HEAD <= i < at + U16At(s[at..], 2)
  }

  /** Two streams that agree outside the payload of PDU k meet the same PDUs and report the same for every
      other one. */
  lemma {:induction false} WalkLocality(s: seq<Byte>, t: seq<Byte>, n: nat, lim: Limits, k: nat)
    requires |s| == |t| && k < |Walk(s, n, lim)|
    requires forall i :: 0 <= i < |s| && !InPayload(s, n, lim, k, i) ==> s[i] == t[i]
    ensures |Walk(t, n, lim)| == |Walk(s, n, lim)|
    ensures forall j :: 0 <= j < |Walk(s, n, lim)| && j != k ==> Walk(t, n, lim)[j] == Walk(s, n, lim)[j]
  {
    hide PduOf, InPayload, StartOf;
    var e := U16At(s, 2);
    if k == 0 {
      forall i | 0 <= i < |s| && !(PDU_HEAD <= i < e) ensures s[i] == t[i] {
        FirstPayload(s, n, lim, i);
      }
      SameFrame(s, t, e);
    } else {
      forall i | 0 <= i < |s| && (i < e || !InPayload(s[e..], n - 1, lim, k - 1, i - e)) ensures s[i] == t[i] {
        LaterPayload(s, n, lim, k, i);
      }
      assert s[..e] == t[..e];
      assert U16At(t, 2) == e;
      forall i | 0 <= i < |s| - e && !InPayload(s[e..], n - 1, lim, k - 1, i) ensures s[e..][i] == t[e..][i] {
        assert s[e + i] == t[e + i];
      }
      WalkLocality(s[e..], t[e..], n - 1, lim, k - 1);
      WalkUnfold(s, n, lim);
      WalkUnfold(t, n, lim);
    }
  }

  lemma WalkUnfold(s: seq<Byte>, n: nat, lim: Limits)
    requires n > 0 && Framed(s)
    ensures Walk(s, n, lim) == [PduOf(s[..U16At(s, 2)], lim)] + Walk(s[U16At(s, 2)..], n - 1, lim)
  {
  }

  lemma FirstPayload(s: seq<Byte>, n: nat, lim: Limits, i: nat)
    requires 0 < |Walk(s, n, lim)|
    ensures InPayload(s, n, lim, 0, i) <==> PDU_HEAD <= i < U16At(s, 2)
  {
    assert s[0..] == s;
  }

  lemma LaterPayload(s: seq<Byte>, n: nat, lim: Limits, k: nat, i: nat)
    requires 0 < k < |Walk(s, n, lim)|
    ensures InPayload(s, n, lim, k, i) <==> U16At(s, 2) <= i && InPayload(s[U16At(s, 2)..], n - 1, lim, k - 1, i - U16At(s, 2))
  {
    hide PduOf;
    var e := U16At(s, 2);
    assert s[e..][StartOf(s[e..], n - 1, lim, k - 1)..] == s[StartOf(s, n, lim, k)..];
  }

  /** The same for whole messages: the slot and every other PDU's report are untouched. */
  lemma {:induction false} MessageLocality(s: seq<Byte>, t: seq<Byte>, numerology: nat, lim: Limits, k: nat)
    requires MESSAGE_HEAD <= |s| == |t| && k < |Walk(s[MESSAGE_HEAD..], U16At(s, 12), lim)|
    requires forall i :: 0 <= i < |s| && (i < MESSAGE_HEAD || !InPayload(s[MESSAGE_HEAD..], U16At(s, 12), lim, k, i - MESSAGE_HEAD)) ==> s[i] == t[i]
    ensures var ws, wt := Walk(s[MESSAGE_HEAD..], U16At(s, 12), lim), Walk(t[MESSAGE_HEAD..], U16At(t, 12), lim);
            && |wt| == |ws| && (forall j :: 0 <= j < |ws| && j != k ==> wt[j] == ws[j])
            && Notifications(t, numerology, lim) == Reported(SlotOf(s, numerology), wt)
  {
    hide PduOf, Walk, Reported;
    assert s[..MESSAGE_HEAD] == t[..MESSAGE_HEAD];
    assert U16At(s, 8) == U16At(t, 8) && U16At(s, 10) == U16At(t, 10) && U16At(s, 12) == U16At(t, 12);
    WalkLocality(s[MESSAGE_HEAD..], t[MESSAGE_HEAD..], U16At(s, 12), lim, k);
  }

  lemma SameFrame(s: seq<Byte>, t: seq<Byte>, e: nat)
    requires |s| == |t| && Framed(s) && e == U16At(s, 2)
    requires forall i :: 0 <= i < |s| && !(PDU_HEAD <= i < e) ==> s[i] == t[i]
    ensures Framed(t) && U16At(t, 2) == e && s[e..] == t[e..]
  {
  }

  // ================================================================ resynchronisation

  /** Where the k-th known section starts. */
  function SectionStart(ext: seq<Byte>, q: nat, plan: seq<Slot>, k: nat): (r: nat)
    requires ValidPlan(plan) && k <= |plan|
    ensures q <= r
    decreases k
  {
    if k == 0 then q else SectionStart(ext, After(ext, q, plan[0]), plan[1..], k - 1)
  }

  /** A section is reported exactly when the bitmap names it, all of it lies inside the extent, and its receiver
      can hold it. */
  lemma {:induction false} ReportedExactly(ext: seq<Byte>, q: nat, plan: seq<Slot>, k: nat)
    requires ValidPlan(plan) && k < |plan|
    ensures var at := SectionStart(ext, q, plan, k);
            && Sections(ext, q, plan)[k] == SectionAt(ext, at, plan[k])
            && (Sections(ext, q, plan)[k].Some? <==>
                 plan[k].named && at + plan[k].head <= |ext| && at + Declared(ext, at, plan[k].head) <= |ext|
                 && BitLength(ext, at, plan[k].head) <= plan[k].limit)
    decreases k
  {
    if k > 0 {
      ReportedExactly(ext, After(ext, q, plan[0]), plan[1..], k - 1);
    }
  }

  // ---------------------------------------------------------------- on arbitrary bytes

  /** A section with `head` bytes in front of its bits, which stands at `q` if its bitmap bit is set: it is reported when
      all of it lies in the PDU and its receiver can hold it. */
  predicate Carried(ext: seq<Byte>, q: nat, bit: bool, head: nat, limit: nat)
    requires 2 <= head
  {
    && bit && q + head <= |ext|
    && var n := U16At(ext, q + head - 2); n <= limit && q + head + (n + 7) / 8 <= |ext|
  }

  /** Where the next section then stands. */
  function Behind(ext: seq<Byte>, q: nat, bit: bool, head: nat): nat
    requires 2 <= head
  {
    if bit && q + head <= |ext| then q + head + (U16At(ext, q + head - 2) + 7) / 8 else q
  }

  lemma SectionCarried(ext: seq<Byte>, q: nat, slot: Slot)
    requires slot.Valid()
    ensures SectionAt(ext, q, slot).Some? <==> Carried(ext, q, slot.named, slot.head, slot.limit)
    ensures After(ext, q, slot) == Behind(ext, q, slot.named, slot.head)
  {
    hide Unpack;
  }

  /** Which sections of a PUSCH PDU are reported, for any bytes: HARQ is bit 1 of the bitmap, CSI part 1 bit 2, CSI part 2
      bit 3, in this order, each behind whatever the one before it declares. */
  lemma PuschReported(ext: seq<Byte>, lim: Limits)
    requires PDU_HEAD <= |ext| && U16At(ext, 0) == 0
    ensures PduOf(ext, lim).Some? <==> 16 <= |ext|
    ensures 16 <= |ext| ==>
              var r, harq, csi1, csi2 := PduOf(ext, lim).value, ext[4] / 2 % 2 == 1, ext[4] / 4 % 2 == 1, ext[4] / 8 % 2 == 1;
              var q1 := Behind(ext, 16, harq, 3);
              var q2 := Behind(ext, q1, csi1, 3);
              && r.Pusch? && (r.harq.Some? <==> Carried(ext, 16, harq, 3, lim.maxPayloadBits))
              && (r.csi1.Some? <==> Carried(ext, q1, csi1, 3, lim.maxPayloadBits))
              && (r.csi2.Some? <==> Carried(ext, q2, csi2, 3, lim.maxPayloadBits))
  {
    hide Sections, SectionAt, After, Carried, Behind, Bit, PuschHead;
    if 16 <= |ext| {
      var plan := PuschPlan(ext[4], lim);
      FourBits(ext[4]);
      Sections3(ext, 16, plan);
      ThreeCarried(ext, 16, plan);
    }
  }

  lemma ThreeCarried(ext: seq<Byte>, q: nat, plan: seq<Slot>)
    requires |plan| == 3 && ValidPlan(plan)
    ensures var q1 := Behind(ext, q, plan[0].named, plan[0].head);
            var q2 := Behind(ext, q1, plan[1].named, plan[1].head);
            && After(ext, q, plan[0]) == q1 && After(ext, q1, plan[1]) == q2
            && (SectionAt(ext, q, plan[0]).Some? <==> Carried(ext, q, plan[0].named, plan[0].head, plan[0].limit))
            && (SectionAt(ext, q1, plan[1]).Some? <==> Carried(ext, q1, plan[1].named, plan[1].head, plan[1].limit))
            && (SectionAt(ext, q2, plan[2]).Some? <==> Carried(ext, q2, plan[2].named, plan[2].head, plan[2].limit))
  {
    hide SectionAt, After, Carried, Behind;
    SectionCarried(ext, q, plan[0]);
    var q1 := After(ext, q, plan[0]);
    SectionCarried(ext, q1, plan[1]);
    SectionCarried(ext, After(ext, q1, plan[1]), plan[2]);
  }

  /** The same for PUCCH formats 2, 3 and 4, where SR is bit 0 and comes first, with no status byte. */
  lemma Pucch234Reported(ext: seq<Byte>, lim: Limits)
    requires PDU_HEAD <= |ext| && U16At(ext, 0) == 2
    ensures PduOf(ext, lim).Some? <==> 17 <= |ext|
    ensures 17 <= |ext| ==>
              var r, sr, harq := PduOf(ext, lim).value, ext[4] % 2 == 1, ext[4] / 2 % 2 == 1;
              var csi1, csi2 := ext[4] / 4 % 2 == 1, ext[4] / 8 % 2 == 1;
              var q0 := Behind(ext, 17, sr, 2);
              var q1 := Behind(ext, q0, harq, 3);
              var q2 := Behind(ext, q1, csi1, 3);
              && r.Pucch234? && (r.sr.Some? <==> Carried(ext, 17, sr, 2, lim.maxSrBits))
              && (r.harq.Some? <==> Carried(ext, q0, harq, 3, lim.maxPayloadBits))
              && (r.csi1.Some? <==> Carried(ext, q1, csi1, 3, lim.maxPayloadBits))
              && (r.csi2.Some? <==> Carried(ext, q2, csi2, 3, lim.maxPayloadBits))
  {
    hide Sections, SectionAt, After, Carried, Behind, Bit, PucchHead;
    if 17 <= |ext| {
      var plan := Pucch234Plan(ext[4], lim);
      FourBits(ext[4]);
      SectionsUnfold(ext, 17, plan);
      SectionCarried(ext, 17, plan[0]);
      var q0 := After(ext, 17, plan[0]);
      Sections3(ext, q0, plan[1..]);
      ThreeCarried(ext, q0, plan[1..]);
    }
  }

  /** And for PUCCH formats 0 and 1: a scheduling request of two bytes, then HARQ values behind their number. */
  lemma Pucch01Reported(ext: seq<Byte>, lim: Limits)
    requires PDU_HEAD <= |ext| && U16At(ext, 0) == 1
    ensures PduOf(ext, lim).Some? <==> 17 <= |ext|
    ensures 17 <= |ext| ==>
              var r, sr, harq := PduOf(ext, lim).value, ext[4] % 2 == 1 && 19 <= |ext|, ext[4] / 2 % 2 == 1;
              var q := if sr then 19 else 17;
              && r.Pucch01? && (r.srDetected.Some? <==> sr)
              && (r.harqValues.Some? <==> harq && q + 2 <= |ext| && ext[q] <= lim.maxHarq && q + 2 + ext[q] <= |ext|)
              && (sr ==> r.srDetected.value == (ext[17] != 0))
              && (r.harqValues.Some? ==> r.harqValues.value == ext[q + 2..q + 2 + ext[q]])
  {
    hide Bit, PucchHead;
    if 17 <= |ext| {
      FourBits(ext[4]);
    }
  }

  predicate HeadsGrow(plan: seq<Slot>)
  {
    forall i, j :: 0 <= i <= j < |plan| ==> plan[i].head <= plan[j].head
  }

  lemma {:induction false} NothingPastTheEnd(ext: seq<Byte>, q: nat, plan: seq<Slot>)
    requires ValidPlan(plan) && HeadsGrow(plan) && (plan != [] ==> q + plan[0].head > |ext|)
    ensures forall j :: 0 <= j < |plan| ==> Sections(ext, q, plan)[j] == None
    decreases |plan|
  {
    if plan != [] {
      assert After(ext, q, plan[0]) == q;
      NothingPastTheEnd(ext, q, plan[1..]);
    }
  }

  /** Once a named section overruns the extent, neither it nor any later section is reported. */
  lemma {:induction false} OverrunSilencesTheRest(ext: seq<Byte>, q: nat, plan: seq<Slot>, k: nat)
    requires ValidPlan(plan) && HeadsGrow(plan) && k < |plan| && plan[k].named
    requires var at := SectionStart(ext, q, plan, k);
             at + plan[k].head > |ext| || at + Declared(ext, at, plan[k].head) > |ext|
    ensures forall j :: k <= j < |plan| ==> Sections(ext, q, plan)[j] == None
    decreases k
  {
    var next := After(ext, q, plan[0]);
    if k > 0 {
      OverrunSilencesTheRest(ext, next, plan[1..], k - 1);
    } else {
      NothingPastTheEnd(ext, next, plan[1..]);
    }
  }

  /** A section sees only what lies at or past the cursor. */
  lemma SectionShift(a: seq<Byte>, b: seq<Byte>, s: seq<Byte>, slot: Slot, q: nat)
    requires slot.Valid()
    ensures SectionAt(a + s, |a| + q, slot) == SectionAt(b + s, |b| + q, slot)
    ensures After(a + s, |a| + q, slot) - |a| == After(b + s, |b| + q, slot) - |b| >= q
  {
    hide Unpack;
    var h := slot.head;
    if q + h <= |s| {
      Shifted(a, s, q + h - 2, q + h);
      Shifted(b, s, q + h - 2, q + h);
      Shifted(a, s, q, q + h);
      Shifted(b, s, q, q + h);
      assert BitLength(a + s, |a| + q, h) == U16At(s, q + h - 2) == BitLength(b + s, |b| + q, h);
      var n := BytesFor(U16At(s, q + h - 2));
      if q + h + n <= |s| {
        Shifted(a, s, q + h, q + h + n);
        Shifted(b, s, q + h, q + h + n);
      }
    }
  }

  lemma Shifted(a: seq<Byte>, s: seq<Byte>, i: nat, j: nat)
    requires i < j <= |s| || i == j <= |s|
    ensures (a + s)[|a| + i..|a| + j] == s[i..j]
    ensures forall k :: i <= k < j ==> (a + s)[|a| + k] == s[k]
  {
  }

  lemma {:induction false} SectionsShift(a: seq<Byte>, b: seq<Byte>, s: seq<Byte>, plan: seq<Slot>, q: nat)
    requires ValidPlan(plan)
    ensures Sections(a + s, |a| + q, plan) == Sections(b + s, |b| + q, plan)
    decreases |plan|
  {
    hide Sections, SectionAt, After;
    if plan != [] {
      SectionShift(a, b, s, plan[0], q);
      SectionsShift(a, b, s, plan[1..], After(a + s, |a| + q, plan[0]) - |a|);
      SectionsUnfold(a + s, |a| + q, plan);
      SectionsUnfold(b + s, |b| + q, plan);
    } else {
      SectionsNil(a + s, |a| + q);
      SectionsNil(b + s, |b| + q);
    }
  }

  /** The extent with the bytes of one section cut out. */
  function Cut(ext: seq<Byte>, at: nat, n: nat): seq<Byte>
    requires at + n <= |ext|
  {
    ext[..at] + ext[at + n..]
  }

  /** A section too long for its receiver, but inside the extent, is dropped, and every other section reads exactly
      as if the bad one had never been sent. */
  lemma {:induction false} OversizeIsSkipped(ext: seq<Byte>, q: nat, plan: seq<Slot>, k: nat)
    requires ValidPlan(plan) && k < |plan| && plan[k].named
    requires var at := SectionStart(ext, q, plan, k);
             at + plan[k].head <= |ext| && at + Declared(ext, at, plan[k].head) <= |ext|
             && BitLength(ext, at, plan[k].head) > plan[k].limit
    ensures var at := SectionStart(ext, q, plan, k);
            var r := Sections(ext, q, plan);
            && r[k] == None
            && r[..k] + r[k + 1..] == Sections(Cut(ext, at, Declared(ext, at, plan[k].head)), q, plan[..k] + plan[k + 1..])
    decreases k
  {
    hide Sections, SectionAt, After;
    var at := SectionStart(ext, q, plan, k);
    var d := Declared(ext, at, plan[k].head);
    var r := Sections(ext, q, plan);
    var next := After(ext, q, plan[0]);
    var r1 := Sections(ext, next, plan[1..]);
    SectionsUnfold(ext, q, plan);
    if k == 0 {
      FirstIsSkipped(ext, q, plan);
      assert r[..0] + r[1..] == r1 && plan[..0] + plan[1..] == plan[1..];
    } else {
      OversizeIsSkipped(ext, next, plan[1..], k - 1);
      FirstSectionKept(ext, q, plan[0], at, d);
      var short := plan[..k] + plan[k + 1..];
      assert short[0] == plan[0] && short[1..] == plan[1..][..k - 1] + plan[1..][k..];
      SectionsUnfold(Cut(ext, at, d), q, short);
      assert r[..k] + r[k + 1..] == [r[0]] + (r1[..k - 1] + r1[k..]);
    }
  }

  lemma FirstIsSkipped(ext: seq<Byte>, q: nat, plan: seq<Slot>)
    requires ValidPlan(plan) && plan != [] && plan[0].named
    requires q + plan[0].head <= |ext| && q + Declared(ext, q, plan[0].head) <= |ext| && BitLength(ext, q, plan[0].head) > plan[0].limit
    ensures var next := After(ext, q, plan[0]);
            SectionAt(ext, q, plan[0]) == None
            && Sections(ext, next, plan[1..]) == Sections(Cut(ext, q, Declared(ext, q, plan[0].head)), q, plan[1..])
  {
    hide Sections, SectionAt, After, Declared, BitLength;
    var d := Declared(ext, q, plan[0].head);
    SectionsShift(ext[..q + d], ext[..q], ext[q + d..], plan[1..], 0);
    assert ext[..q + d] + ext[q + d..] == ext;
    OversizeDropped(ext, q, plan[0]);
  }

  /** A section that ends before the cut is untouched by it. */
  lemma FirstSectionKept(ext: seq<Byte>, q: nat, slot: Slot, at: nat, d: nat)
    requires slot.Valid() && at + d <= |ext| && After(ext, q, slot) <= at
    requires slot.named ==> q + slot.head <= |ext|
    ensures SectionAt(Cut(ext, at, d), q, slot) == SectionAt(ext, q, slot)
    ensures After(Cut(ext, at, d), q, slot) == After(ext, q, slot)
  {
    var cut := Cut(ext, at, d);
    if slot.named && q + slot.head <= |ext| {
      assert forall i :: 0 <= i < at ==> cut[i] == ext[i];
      var n := BitLength(ext, q, slot.head);
      assert BitLength(cut, q, slot.head) == n;
      assert cut[q + slot.head..q + slot.head + BytesFor(n)] == ext[q + slot.head..q + slot.head + BytesFor(n)];
    }
  }
}
