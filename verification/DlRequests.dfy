/** DL_TTI.request (SCF 222, section 3.4.2). */
module DlRequests {
  import opened Wire
  import opened Envelope
  import opened PduFrame
  import opened Requests
  import D = DlPdus

  datatype DlPdu =
    | SsbPdu(ssb: D.Ssb)
    | PdcchPdu(pdcch: D.Pdcch)
    | PdschPdu(pdsch: D.Pdsch<D.Codeword>)
    | CsiRsPdu
    | PrsPdu

  predicate Supported(p: DlPdu)
  {
    p.SsbPdu? || p.PdcchPdu? || p.PdschPdu?
  }

  predicate DlValid(p: DlPdu)
  {
    match p
    case PdcchPdu(x) => D.PdcchValid(x)
    case PdschPdu(x) => |x.cws| < 0x100
    case _ => true
  }

  function DlExtent(t: D.McsTables, p: DlPdu, index: nat): (b: seq<Byte>)
    requires DlValid(p) && Supported(p)
    ensures Framed(b)
  {
    match p
    case SsbPdu(x) =>
      D.SsbWidth(x);
      PduFramed(D.SSB, Encode(D.SsbFields(x)));
      PduBytes(D.SSB, Encode(D.SsbFields(x)))
    case PdcchPdu(x) =>
      D.PdcchSize(x);
      PduFramed(D.PDCCH, D.PdcchBody(x));
      PduBytes(D.PDCCH, D.PdcchBody(x))
    case PdschPdu(x) =>
      D.PdschSize(D.Wired(t, x), index % 0x1_0000);
      PduFramed(D.PDSCH, D.PdschBody(D.Wired(t, x), index % 0x1_0000));
      PduBytes(D.PDSCH, D.PdschBody(D.Wired(t, x), index % 0x1_0000))
  }

  /** The PDUs that go out; unsupported kinds leave no trace. `index` counts the PDSCH PDUs so far. */
  function DlExtents(t: D.McsTables, ps: seq<DlPdu>, index: nat): (es: seq<seq<Byte>>)
    requires forall i :: 0 <= i < |ps| ==> DlValid(ps[i])
    ensures AllFramed(es)
    decreases |ps|
  {
    if ps == [] then []
    else if !Supported(ps[0]) then DlExtents(t, ps[1..], index)
    else [DlExtent(t, ps[0], index)] + DlExtents(t, ps[1..], if ps[0].PdschPdu? then index + 1 else index)
  }

  function DlHead(sfn: U16, slot: U16, nofPdus: nat): (h: seq<Byte>)
    ensures |h| == 6
  {
    Le16(sfn) + Le16(slot) + [nofPdus % 0x100, 0]
  }

  /** One PDU of the loop; returns a size of zero for the kinds that are not supported. */
  method PutDlPdu(t: D.McsTables, p: DlPdu, buf: array<Byte>, pos: nat, index: nat) returns (size: nat)
    requires DlValid(p) && (Supported(p) ==> pos + |DlExtent(t, p, index)| <= buf.Length)
    modifies buf
    ensures Supported(p) ==> size == |DlExtent(t, p, index)| > 0 && buf[..] == Overwrite(old(buf[..]), pos, DlExtent(t, p, index))
    ensures !Supported(p) ==> size == 0 && buf[..] == old(buf[..])
  {
    hide D.PdcchBody, D.PdschBody, Encode;
    size := 0;
    match p {
      case SsbPdu(x) =>
        D.SsbWidth(x);
        size := D.SerializeSsb(x, buf, pos);
      case PdcchPdu(x) =>
        D.PdcchSize(x);
        size := D.SerializePdcch(x, buf, pos);
      case PdschPdu(x) =>
        D.PdschSize(D.Wired(t, x), index % 0x1_0000);
        size := D.SerializePdsch(t, x, buf, pos, index % 0x1_0000);
      case CsiRsPdu =>
      case PrsPdu =>
    }
  }

  /** What the loop has left to do, and what it has done, in one step. */
  lemma DlStep(t: D.McsTables, ps: seq<DlPdu>, index: nat, done: seq<seq<Byte>>, all: seq<seq<Byte>>)
    requires ps != [] && (forall i :: 0 <= i < |ps| ==> DlValid(ps[i])) && done + DlExtents(t, ps, index) == all
    ensures if Supported(ps[0]) then
              var b := DlExtent(t, ps[0], index);
              && done + [b] + DlExtents(t, ps[1..], if ps[0].PdschPdu? then index + 1 else index) == all
              && |done| < |all| && all[..|done| + 1] == done + [b]
            else
              done + DlExtents(t, ps[1..], index) == all
    ensures done <= all
  {
    hide DlExtent;
  }

  /** serialize_dl_tti_request. The caller must leave room for the PDUs, which the code does not check. */
  method SerializeDlTti(cellId: Byte, sfn: U16, slot: U16, t: D.McsTables, ps: seq<DlPdu>, buf: array<Byte>) returns (bytes: int)
    requires forall i :: 0 <= i < |ps| ==> DlValid(ps[i])
    requires 14 <= buf.Length ==> 14 + |Joined(DlExtents(t, ps, 0))| <= buf.Length < 0x8000_0000
    modifies buf
    ensures buf.Length < 14 ==> bytes == -1 && buf[..] == old(buf[..])
    ensures 14 <= buf.Length ==>
              var extents := DlExtents(t, ps, 0);
              var head := DlHead(sfn, slot, |extents|);
              && |Body(head, extents)| < 0x1_0000_0000
              && bytes == |Message(cellId, DL_TTI_REQUEST, head, extents)| <= buf.Length
              && buf[..] == Overwrite(old(buf[..]), 0, Message(cellId, DL_TTI_REQUEST, head, extents))
  {
    if buf.Length < 14 {
      return -1;
    }
    ghost var extents := DlExtents(t, ps, 0);
    var next := PutDlBody(sfn, slot, t, ps, buf);
    WriteHeaders(buf, cellId, DL_TTI_REQUEST, next - HEADERS, old(buf[..]), Body(DlHead(sfn, slot, |extents|), extents));
    bytes := next;
  }

  method PutDlBody(sfn: U16, slot: U16, t: D.McsTables, ps: seq<DlPdu>, buf: array<Byte>) returns (next: nat)
    requires forall i :: 0 <= i < |ps| ==> DlValid(ps[i])
    requires 14 + |Joined(DlExtents(t, ps, 0))| <= buf.Length
    modifies buf
    ensures var extents := DlExtents(t, ps, 0);
            var body := Body(DlHead(sfn, slot, |extents|), extents);
            next == HEADERS + |body| <= buf.Length && buf[..] == Overwrite(old(buf[..]), HEADERS, body)
  {
    hide DlExtents, DlExtent, Joined, DlHead, Body, Overwrite;
    ghost var base := buf[..];
    ghost var all := DlExtents(t, ps, 0);
    ghost var done: seq<seq<Byte>> := [];
    Copy(buf, HEADERS, DlHead(sfn, slot, 0));
    EmptyBody(DlHead(sfn, slot, 0), all);
    assert ps[0..] == ps && [] + all == all;
    next := 14;
    var index := 0;
    for i := 0 to |ps|
      invariant done + DlExtents(t, ps[i..], index) == all
      invariant next == 14 + |Joined(done)| <= buf.Length
      invariant HEADERS + |Body(DlHead(sfn, slot, |done|), done)| == next
      invariant buf[..] == Overwrite(base, HEADERS, Body(DlHead(sfn, slot, |done|), done))
    {
      assert ps[i..][0] == ps[i] && ps[i..][1..] == ps[i + 1..];
      DlStep(t, ps[i..], index, done, all);
      if Supported(ps[i]) {
        JoinedPrefix(done + [DlExtent(t, ps[i], index)], all);
      }
      next, done := PutAndCount(sfn, slot, t, ps[i], buf, next, index, base, done);
      if ps[i].PdschPdu? {
        index := index + 1;
      }
    }
    assert ps[|ps|..] == [];
    NoDlExtents(t, index);
    assert done + [] == done;
  }

  lemma EmptyBody(head: seq<Byte>, all: seq<seq<Byte>>)
    ensures Body(head, []) == head && |Joined([])| == 0
  {
  }

  /** The body of the loop: the PDU, the cursor, and the count kept in the head. */
  method PutAndCount(sfn: U16, slot: U16, t: D.McsTables, p: DlPdu, buf: array<Byte>, pos: nat, index: nat,
                     ghost base: seq<Byte>, ghost done: seq<seq<Byte>>)
    returns (next: nat, ghost done': seq<seq<Byte>>)
    requires |base| == buf.Length && DlValid(p) && pos == 14 + |Joined(done)| <= buf.Length
    requires Supported(p) ==> 14 + |Joined(done + [DlExtent(t, p, index)])| <= buf.Length
    requires HEADERS + |Body(DlHead(sfn, slot, |done|), done)| == pos
    requires buf[..] == Overwrite(base, HEADERS, Body(DlHead(sfn, slot, |done|), done))
    modifies buf
    ensures done' == if Supported(p) then done + [DlExtent(t, p, index)] else done
    ensures next == 14 + |Joined(done')| <= buf.Length && HEADERS + |Body(DlHead(sfn, slot, |done'|), done')| == next
    ensures buf[..] == Overwrite(base, HEADERS, Body(DlHead(sfn, slot, |done'|), done'))
  {
    hide DlExtent, DlHead, Joined, Overwrite, Body;
    ghost var b := if Supported(p) then DlExtent(t, p, index) else [];
    JoinedSnoc(done, b);
    var size := PutDlPdu(t, p, buf, pos, index);
    next, done' := pos, done;
    if size > 0 {
      next := pos + size;
      OverwriteMeets(base, HEADERS, Body(DlHead(sfn, slot, |done|), done), b);
      BumpByte(buf, base, HEADERS, Body(DlHead(sfn, slot, |done|), done) + b, 4);
      DlHeadBump(sfn, slot, done, b);
      done' := done + [b];
    }
  }

  lemma NoDlExtents(t: D.McsTables, index: nat)
    ensures DlExtents(t, [], index) == []
  {
  }

  lemma DlHeadBump(sfn: U16, slot: U16, done: seq<seq<Byte>>, b: seq<Byte>)
    ensures var x := Body(DlHead(sfn, slot, |done|), done) + b;
            x[4 := (x[4] as int + 1) % 0x100] == Body(DlHead(sfn, slot, |done + [b]|), done + [b])
  {
    JoinedSnoc(done, b);
    var n := |done|;
    assert (n % 0x100 + 1) % 0x100 == (n + 1) % 0x100;
    var x := Body(DlHead(sfn, slot, n), done) + b;
    assert x == DlHead(sfn, slot, n) + (Joined(done) + b);
    assert DlHead(sfn, slot, n)[4 := (n + 1) % 0x100] == DlHead(sfn, slot, n + 1);
  }

  // ---------------------------------------------------------------- what the DL_TTI receiver sees

  datatype DlView = SeenSsb(ssb: D.Ssb) | SeenPdcch(pdcch: D.Pdcch) | SeenPdsch(index: U16, pdsch: D.Pdsch<D.WireCodeword>)

  function ReadDl(b: seq<Byte>): Option<DlView>
    requires FRAME <= |b|
  {
    match U16At(b, 0)
    case 0 =>
      var r :- D.ReadPdcch(b[FRAME..]);
      Some(SeenPdcch(r.pdu))
    case 1 =>
      var r :- D.ReadPdsch(b[FRAME..]);
      Some(SeenPdsch(r.pdu.index, r.pdu.pdu))
    case 3 =>
      var r :- D.ReadSsb(b[FRAME..]);
      Some(SeenSsb(r.pdu))
    case _ => None
  }

  /** The PDUs of a request that reach L1: CSI-RS and PRS do not. */
  function SentOf(ps: seq<DlPdu>): seq<DlPdu>
  {
    if ps == [] then [] else (if ps[0].CsiRsPdu? || ps[0].PrsPdu? then [] else [ps[0]]) + SentOf(ps[1..])
  }

  function PdschCount(ps: seq<DlPdu>): nat
  {
    if ps == [] then 0 else (if ps[0].PdschPdu? then 1 else 0) + PdschCount(ps[1..])
  }

  /** A codeword as it should arrive: index, redundancy version and size are the request's; the table is the request's
      unless table 0 is forced; rate and modulation are those of the table at the index, either taken as 0 when out of
      range, and the modulation is the request's when the table has none. */
  predicate SameCodeword(t: D.McsTables, c: D.Codeword, w: D.WireCodeword)
  {
    && w.mcsIndex == c.mcsIndex && w.rv == c.rv && w.tbSize == c.tbSize
    && w.mcsTable == (if t.forceTable0 then 0 else c.mcsTable)
    && var entry := t.entries(if w.mcsTable >= 4 then 0 else w.mcsTable, if c.mcsIndex >= 32 then 0 else c.mcsIndex);
       w.rateTenths == entry.rateTenths && w.qam == (if entry.qam == 0 then c.qam else entry.qam)
  }

  /** A PDSCH as it should arrive: field by field the request's. */
  predicate SamePdsch(t: D.McsTables, p: D.Pdsch<D.Codeword>, w: D.Pdsch<D.WireCodeword>)
  {
    && w.rnti == p.rnti && w.bwp == p.bwp && w.nid == p.nid && w.layers == p.layers && w.refPoint == p.refPoint
    && w.dmrsSymbols == p.dmrsSymbols && w.dmrsType == p.dmrsType && w.dmrsScrambling == p.dmrsScrambling && w.nscid == p.nscid
    && w.cdmGroupsNoData == p.cdmGroupsNoData && w.dmrsPorts == p.dmrsPorts
    && w.rbStart == p.rbStart && w.rbSize == p.rbSize && w.vrbToPrb == p.vrbToPrb
    && w.symStart == p.symStart && w.symLength == p.symLength
    && |w.cws| == |p.cws| && forall i :: 0 <= i < |p.cws| ==> SameCodeword(t, p.cws[i], w.cws[i])
  }

  /** What reading the extent of `p` should show, when `index` PDSCH PDUs were sent before it. */
  predicate Shows(t: D.McsTables, p: DlPdu, index: nat, v: DlView)
  {
    match p
    case SsbPdu(x) => v == SeenSsb(x.(power := D.NrProfile(if x.power.NrProfile? then x.power.beta else 0)))
    case PdcchPdu(x) => v == SeenPdcch(x.(resource := D.Received(x.resource)))
    case PdschPdu(x) => v.SeenPdsch? && v.index == index % 0x1_0000 && SamePdsch(t, x, v.pdsch)
    case _ => false
  }

  lemma WiredSame(t: D.McsTables, p: D.Pdsch<D.Codeword>)
    ensures SamePdsch(t, p, D.Wired(t, p))
  {
    var w := D.Wired(t, p);
    forall i | 0 <= i < |p.cws| ensures SameCodeword(t, p.cws[i], w.cws[i]) {
      assert w.cws[i] == D.Lookup(t, p.cws[i]);
    }
  }

  lemma DlExtentRead(t: D.McsTables, p: DlPdu, index: nat)
    requires DlValid(p) && Supported(p)
    ensures var v := ReadDl(DlExtent(t, p, index)); v.Some? && Shows(t, p, index, v.value)
  {
    hide D.ReadPdcch, D.ReadPdsch, D.ReadSsb, D.PdcchBody, D.PdschBody, D.SsbFields, Encode, D.Wired, D.Received, SamePdsch;
    match p
    case SsbPdu(x) =>
      D.SsbWidth(x);
      PduFramed(D.SSB, Encode(D.SsbFields(x)));
      D.SsbBack(x, []);
      assert Encode(D.SsbFields(x)) + [] == Encode(D.SsbFields(x));
    case PdcchPdu(x) =>
      D.PdcchSize(x);
      PduFramed(D.PDCCH, D.PdcchBody(x));
      D.PdcchBack(x, []);
      assert D.PdcchBody(x) + [] == D.PdcchBody(x);
    case PdschPdu(x) =>
      var w := D.Wired(t, x);
      WiredCodewords(t, x);
      WiredSame(t, x);
      D.PdschSize(w, index % 0x1_0000);
      PduFramed(D.PDSCH, D.PdschBody(w, index % 0x1_0000));
      D.PdschBack(w, index % 0x1_0000, []);
      assert D.PdschBody(w, index % 0x1_0000) + [] == D.PdschBody(w, index % 0x1_0000);
  }

  lemma WiredCodewords(t: D.McsTables, p: D.Pdsch<D.Codeword>)
    ensures |D.Wired(t, p).cws| == |p.cws|
  {
  }

  /** Reading the extents gives the supported PDUs of the request, in order, each with its own fields and each PDSCH with
      the number of those before it. */
  lemma {:induction false} DlReceived(t: D.McsTables, ps: seq<DlPdu>, index: nat)
    requires forall i :: 0 <= i < |ps| ==> DlValid(ps[i])
    ensures |DlExtents(t, ps, index)| == |SentOf(ps)|
    ensures forall i :: 0 <= i < |SentOf(ps)| ==>
              var v := ReadDl(DlExtents(t, ps, index)[i]);
              v.Some? && Shows(t, SentOf(ps)[i], index + PdschCount(SentOf(ps)[..i]), v.value)
    decreases |ps|
  {
    hide ReadDl, DlExtent, Shows, DlExtents, SentOf, PdschCount;
    if ps == [] {
      NothingSent(t, index);
    } else {
      var next := if ps[0].PdschPdu? then index + 1 else index;
      var es, rest, all := DlExtents(t, ps[1..], next), SentOf(ps[1..]), SentOf(ps);
      DlReceived(t, ps[1..], next);
      ExtentsUnfold(t, ps, index);
      if Supported(ps[0]) {
        DlExtentRead(t, ps[0], index);
        SentCounts(ps, index);
        forall i | 0 <= i < |all|
          ensures var v := ReadDl(DlExtents(t, ps, index)[i]); v.Some? && Shows(t, all[i], index + PdschCount(all[..i]), v.value)
        {
          if i > 0 {
            assert DlExtents(t, ps, index)[i] == es[i - 1] && all[i] == rest[i - 1];
            assert PdschCount(all[..(i - 1) + 1]) == (if ps[0].PdschPdu? then 1 else 0) + PdschCount(rest[..i - 1]);
          }
        }
      }
    }
  }

  lemma NothingSent(t: D.McsTables, index: nat)
    ensures DlExtents(t, [], index) == [] && SentOf([]) == []
  {
  }

  lemma ExtentsUnfold(t: D.McsTables, ps: seq<DlPdu>, index: nat)
    requires ps != [] && forall i :: 0 <= i < |ps| ==> DlValid(ps[i])
    ensures var es := DlExtents(t, ps[1..], if ps[0].PdschPdu? then index + 1 else index);
            DlExtents(t, ps, index) == if Supported(ps[0]) then [DlExtent(t, ps[0], index)] + es else es
    ensures !Supported(ps[0]) ==> SentOf(ps) == SentOf(ps[1..])
  {
    hide DlExtent;
  }

  lemma SentCounts(ps: seq<DlPdu>, index: nat)
    requires ps != [] && !ps[0].CsiRsPdu? && !ps[0].PrsPdu?
    ensures var all, rest := SentOf(ps), SentOf(ps[1..]);
            && all == [ps[0]] + rest && PdschCount(all[..0]) == 0
            && forall i :: 0 <= i < |rest| ==>
                 PdschCount(all[..i + 1]) == (if ps[0].PdschPdu? then 1 else 0) + PdschCount(rest[..i])
  {
    hide PdschCount;
    var all, rest := SentOf(ps), SentOf(ps[1..]);
    CountCons(ps[0], []);
    forall i | 0 <= i < |rest| ensures PdschCount(all[..i + 1]) == (if ps[0].PdschPdu? then 1 else 0) + PdschCount(rest[..i]) {
      CountCons(ps[0], rest[..i]);
      assert all[..i + 1] == [ps[0]] + rest[..i];
    }
    assert all[..0] == [];
  }

  lemma CountCons(p: DlPdu, ps: seq<DlPdu>)
    ensures PdschCount([p] + ps) == (if p.PdschPdu? then 1 else 0) + PdschCount(ps) && PdschCount([]) == 0
  {
    assert ([p] + ps)[1..] == ps;
  }

  /** The same from the message on: headers, head, and the walk over a DL_TTI.request with fewer than 256 supported PDUs
      by its own count. */
  lemma DlMessageReceived(cellId: Byte, sfn: U16, slot: U16, t: D.McsTables, ps: seq<DlPdu>)
    requires forall i :: 0 <= i < |ps| ==> DlValid(ps[i])
    requires |SentOf(ps)| < 0x100 && |Body(DlHead(sfn, slot, |DlExtents(t, ps, 0)|), DlExtents(t, ps, 0))| < 0x1_0000_0000
    ensures var es := DlExtents(t, ps, 0);
            var s := Message(cellId, DL_TTI_REQUEST, DlHead(sfn, slot, |es|), es);
            && 14 <= |s| && s[0] == 1 && s[1] == cellId && U16At(s, 2) == 0x80 && U32At(s, 4) == |s| - 8
            && U16At(s, 8) == sfn && U16At(s, 10) == slot && s[12] == |SentOf(ps)| == |es| && s[13] == 0
            && Hop(s[14..], s[12]) == Some(Hops(es, []))
            && forall i :: 0 <= i < |es| ==>
                 var v := ReadDl(es[i]); v.Some? && Shows(t, SentOf(ps)[i], PdschCount(SentOf(ps)[..i]), v.value)
  {
    hide Hop, ReadDl, DlExtents, SentOf, Shows, PdschCount, Joined, HeaderBytes;
    var es := DlExtents(t, ps, 0);
    var head := DlHead(sfn, slot, |es|);
    DlReceived(t, ps, 0);
    Walkable(cellId, DL_TTI_REQUEST, head, es);
    LengthDeclared(cellId, DL_TTI_REQUEST, head, es);
    DlHeadRead(HeaderBytes(cellId, DL_TTI_REQUEST, |Body(head, es)|), sfn, slot, |es|, Joined(es));
    assert es[..|es|] == es;
  }

  lemma DlHeadRead(pre: seq<Byte>, sfn: U16, slot: U16, n: nat, rest: seq<Byte>)
    requires |pre| == 8
    ensures var s := pre + (DlHead(sfn, slot, n) + rest);
            U16At(s, 8) == sfn && U16At(s, 10) == slot && s[12] == n % 0x100 && s[13] == 0
  {
    var s, head := pre + (DlHead(sfn, slot, n) + rest), DlHead(sfn, slot, n);
    assert forall i :: 0 <= i < 6 ==> s[8 + i] == head[i];
  }

  /** The PDSCH PDUs of a request are numbered 0, 1, 2, ... in order: each is read with the number of those before it, and
      every later one with a larger number. */
  lemma PdschNumbered(t: D.McsTables, ps: seq<DlPdu>, i: nat, j: nat)
    requires forall k :: 0 <= k < |ps| ==> DlValid(ps[k])
    requires i < j < |SentOf(ps)| && SentOf(ps)[i].PdschPdu? && SentOf(ps)[j].PdschPdu? && PdschCount(SentOf(ps)) <= 0x1_0000
    ensures |DlExtents(t, ps, 0)| == |SentOf(ps)|
    ensures var u, v := ReadDl(DlExtents(t, ps, 0)[i]), ReadDl(DlExtents(t, ps, 0)[j]);
            && u.Some? && u.value.SeenPdsch? && u.value.index == PdschCount(SentOf(ps)[..i])
            && v.Some? && v.value.SeenPdsch? && v.value.index == PdschCount(SentOf(ps)[..j]) && u.value.index < v.value.index
  {
    hide ReadDl, DlExtents, SentOf, SamePdsch, PdschCount;
    var all := SentOf(ps);
    DlReceived(t, ps, 0);
    CountGrows(all, i, j);
    CountGrows(all, j, |all|);
    assert all[..|all|] == all;
    assert Shows(t, all[i], 0 + PdschCount(all[..i]), ReadDl(DlExtents(t, ps, 0)[i]).value);
    assert Shows(t, all[j], 0 + PdschCount(all[..j]), ReadDl(DlExtents(t, ps, 0)[j]).value);
  }

  lemma {:induction false} CountGrows(ps: seq<DlPdu>, i: nat, j: nat)
    requires i < j <= |ps| && ps[i].PdschPdu?
    ensures PdschCount(ps[..i]) < PdschCount(ps[..j])
    decreases i
  {
    assert ps[..j][0] == ps[0] && ps[..j][1..] == ps[1..][..j - 1];
    if i == 0 {
      assert ps[..0] == [];
    } else {
      assert ps[..i][0] == ps[0] && ps[..i][1..] == ps[1..][..i - 1];
      CountGrows(ps[1..], i - 1, j - 1);
    }
  }
}
