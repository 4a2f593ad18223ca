/** UL_TTI.request and UL_DCI.request (SCF 222, sections 3.4.3 and 3.4.4). */
module UlRequests {
  import opened Wire
  import opened Envelope
  import opened PduFrame
  import opened Requests
  import opened UlPdus
  import opened PucchPdus
  import D = DlPdus
  import opened Reports

  // ================================================================ UL_TTI

  datatype UlPdu = PrachPdu(prach: Prach) | PuschPdu(pusch: Pusch) | PucchPdu(pucch: Pucch) | SrsPdu(srs: Srs)

  function UlExtent(p: UlPdu): (b: seq<Byte>)
    ensures Framed(b)
  {
    match p
    case PrachPdu(x) =>
      PrachWidth(x);
      PduFramed(PRACH, Encode(PrachFields(x)));
      PduBytes(PRACH, Encode(PrachFields(x)))
    case PuschPdu(x) =>
      PuschSize(x);
      PduFramed(PUSCH, PuschBody(x));
      PduBytes(PUSCH, PuschBody(x))
    case PucchPdu(x) =>
      PucchSize(x);
      PduFramed(PUCCH, PucchBody(x));
      PduBytes(PUCCH, PucchBody(x))
    case SrsPdu(x) =>
      SrsSize(x);
      PduFramed(SRS, SrsBody(x));
      PduBytes(SRS, SrsBody(x))
  }

  function UlExtents(ps: seq<UlPdu>): (es: seq<seq<Byte>>)
    ensures |es| == |ps| && AllFramed(es)
    ensures forall i :: 0 <= i < |ps| ==> es[i] == UlExtent(ps[i])
  {
    seq(|ps|, i requires 0 <= i < |ps| => UlExtent(ps[i]))
  }

  /** What the head and the counters say about the list. */
  datatype Tally = Tally(prach: nat, pusch: nat, pucch: nat, srs: nat)

  function AddTo(c: Tally, p: UlPdu): Tally
  {
    match p
    case PrachPdu(_) => c.(prach := c.prach + 1)
    case PuschPdu(_) => c.(pusch := c.pusch + 1)
    case PucchPdu(_) => c.(pucch := c.pucch + 1)
    case SrsPdu(_) => c.(srs := c.srs + 1)
  }

  function TallyOf(ps: seq<UlPdu>): Tally
  {
    if ps == [] then Tally(0, 0, 0, 0) else AddTo(TallyOf(ps[..|ps| - 1]), ps[|ps| - 1])
  }

  function UlHead(sfn: U16, slot: U16, c: Tally): (h: seq<Byte>)
    ensures |h| == 9
  {
    Le16(sfn) + Le16(slot)
    + [(c.prach + c.pusch + c.pucch + c.srs) % 0x100, if c.prach > 0 then 1 else 0, c.pusch % 0x100, c.pucch % 0x100, 0]
  }

  function CountUl(k: Counters, c: Tally): Counters
  {
    k.(ulPrach := Bump(k.ulPrach, c.prach), ulPusch := Bump(k.ulPusch, c.pusch), ulPucch := Bump(k.ulPucch, c.pucch), ulSrs := Bump(k.ulSrs, c.srs))
  }

  method PutUlPdu(p: UlPdu, buf: array<Byte>, pos: nat) returns (size: nat)
    requires pos + |UlExtent(p)| <= buf.Length
    modifies buf
    ensures size == |UlExtent(p)| > 0 && buf[..] == Overwrite(old(buf[..]), pos, UlExtent(p))
  {
    hide Encode, PrachFields, PuschBody, PucchBody, SrsBody;
    match p {
      case PrachPdu(x) =>
        PrachWidth(x);
        size := SerializePrach(x, buf, pos);
      case PuschPdu(x) =>
        PuschSize(x);
        size := SerializePusch(x, buf, pos);
      case PucchPdu(x) =>
        PucchSize(x);
        size := SerializePucch(x, buf, pos);
      case SrsPdu(x) =>
        SrsSize(x);
        size := SerializeSrs(x, buf, pos);
    }
  }

  /** The in-place updates of the head that go with one PDU. */
  method BumpHead(p: UlPdu, sfn: U16, slot: U16, buf: array<Byte>, ghost base: seq<Byte>, ghost c: Tally, ghost rest: seq<Byte>)
    requires |base| == buf.Length && HEADERS + 9 + |rest| <= buf.Length
    requires buf[..] == Overwrite(base, HEADERS, UlHead(sfn, slot, c) + rest)
    modifies buf
    ensures buf[..] == Overwrite(base, HEADERS, UlHead(sfn, slot, AddTo(c, p)) + rest)
  {
    hide UlHead;
    ghost var x := UlHead(sfn, slot, c) + rest;
    match p {
      case PrachPdu(_) =>
        OverwriteByte(base, HEADERS, x, 5, 1);
        buf[HEADERS + 5] := 1;
        x := x[5 := 1];
      case PuschPdu(_) =>
        BumpByte(buf, base, HEADERS, x, 6);
        x := x[6 := (x[6] as int + 1) % 0x100];
      case PucchPdu(_) =>
        BumpByte(buf, base, HEADERS, x, 7);
        x := x[7 := (x[7] as int + 1) % 0x100];
      case SrsPdu(_) =>
    }
    BumpByte(buf, base, HEADERS, x, 4);
    x := x[4 := (x[4] as int + 1) % 0x100];
    HeadAfter(p, sfn, slot, c, rest, x);
  }

  lemma HeadAfter(p: UlPdu, sfn: U16, slot: U16, c: Tally, rest: seq<Byte>, x: seq<Byte>)
    requires var h := UlHead(sfn, slot, c) + rest;
             x == match p
                  case PrachPdu(_) => h[5 := 1][4 := (h[4] as int + 1) % 0x100]
                  case PuschPdu(_) => h[6 := (h[6] as int + 1) % 0x100][4 := (h[4] as int + 1) % 0x100]
                  case PucchPdu(_) => h[7 := (h[7] as int + 1) % 0x100][4 := (h[4] as int + 1) % 0x100]
                  case SrsPdu(_) => h[4 := (h[4] as int + 1) % 0x100]
    ensures x == UlHead(sfn, slot, AddTo(c, p)) + rest
  {
    var h, h' := UlHead(sfn, slot, c), UlHead(sfn, slot, AddTo(c, p));
    ByteSuccessor(c.prach + c.pusch + c.pucch + c.srs);
    ByteSuccessor(c.pusch);
    ByteSuccessor(c.pucch);
    assert h[..4] == h'[..4] == Le16(sfn) + Le16(slot);
    assert h'[4] == (h[4] as int + 1) % 0x100;
    assert forall i :: 0 <= i < 9 ==> x[i] == h'[i];
    assert x[9..] == rest;
  }

  lemma ByteSuccessor(n: nat)
    ensures (n % 0x100 + 1) % 0x100 == (n + 1) % 0x100
  {
  }

  method CountOne(p: UlPdu, m: Metrics, ghost k: Counters, ghost c: Tally)
    requires m.now == CountUl(k, c)
    modifies m
    ensures m.now == CountUl(k, AddTo(c, p))
  {
    BumpBump(k.ulPrach, c.prach, 1);
    BumpBump(k.ulPusch, c.pusch, 1);
    BumpBump(k.ulPucch, c.pucch, 1);
    BumpBump(k.ulSrs, c.srs, 1);
    match p {
      case PrachPdu(_) => m.now := m.now.(ulPrach := Bump(m.now.ulPrach, 1));
      case PuschPdu(_) => m.now := m.now.(ulPusch := Bump(m.now.ulPusch, 1));
      case PucchPdu(_) => m.now := m.now.(ulPucch := Bump(m.now.ulPucch, 1));
      case SrsPdu(_) => m.now := m.now.(ulSrs := Bump(m.now.ulSrs, 1));
    }
  }

  /** serialize_ul_tti_request. The caller must leave room for the PDUs, which the code does not check. */
  method SerializeUlTti(cellId: Byte, sfn: U16, slot: U16, ps: seq<UlPdu>, buf: array<Byte>, m: Metrics) returns (bytes: int)
    requires 17 <= buf.Length ==> 17 + |Joined(UlExtents(ps))| <= buf.Length < 0x8000_0000
    modifies buf, m
    ensures buf.Length < 17 ==> bytes == -1 && buf[..] == old(buf[..]) && m.now == old(m.now)
    ensures 17 <= buf.Length ==>
              var head := UlHead(sfn, slot, TallyOf(ps));
              && |Body(head, UlExtents(ps))| < 0x1_0000_0000
              && bytes == |Message(cellId, UL_TTI_REQUEST, head, UlExtents(ps))| <= buf.Length
              && buf[..] == Overwrite(old(buf[..]), 0, Message(cellId, UL_TTI_REQUEST, head, UlExtents(ps)))
              && m.now == CountUl(old(m.now), TallyOf(ps))
  {
    hide TallyOf, UlExtents, CountUl;
    if buf.Length < 17 {
      return -1;
    }
    var next := PutUlBody(sfn, slot, ps, buf, m);
    WriteHeaders(buf, cellId, UL_TTI_REQUEST, next - HEADERS, old(buf[..]), Body(UlHead(sfn, slot, TallyOf(ps)), UlExtents(ps)));
    bytes := next;
  }

  method PutUlBody(sfn: U16, slot: U16, ps: seq<UlPdu>, buf: array<Byte>, m: Metrics) returns (next: nat)
    requires 17 + |Joined(UlExtents(ps))| <= buf.Length
    modifies buf, m
    ensures var body := Body(UlHead(sfn, slot, TallyOf(ps)), UlExtents(ps));
            next == HEADERS + |body| <= buf.Length && buf[..] == Overwrite(old(buf[..]), HEADERS, body)
    ensures m.now == CountUl(old(m.now), TallyOf(ps))
  {
    hide TallyOf, UlExtent, UlHead, Joined, CountUl, UlExtents, Overwrite, Body;
    ghost var base, k := buf[..], m.now;
    ghost var c := Tally(0, 0, 0, 0);
    ghost var all, done: seq<seq<Byte>> := UlExtents(ps), [];
    Copy(buf, HEADERS, UlHead(sfn, slot, Tally(0, 0, 0, 0)));
    EmptyTally(k);
    EmptyBody(UlHead(sfn, slot, c));
    JoinedPrefix([], all);
    next := 17;
    for i := 0 to |ps|
      invariant done == all[..i] && c == TallyOf(ps[..i])
      invariant next == 17 + |Joined(done)| <= buf.Length && HEADERS + |Body(UlHead(sfn, slot, c), done)| == next
      invariant buf[..] == Overwrite(base, HEADERS, Body(UlHead(sfn, slot, c), done))
      invariant m.now == CountUl(k, c)
    {
      assert all[..i + 1] == done + [UlExtent(ps[i])];
      JoinedPrefix(done + [UlExtent(ps[i])], all);
      next, done := PutAndCount(sfn, slot, ps[i], buf, next, base, c, done);
      CountOne(ps[i], m, k, c);
      TallySnoc(ps, i);
      c := AddTo(c, ps[i]);
    }
    assert all[..|ps|] == all && ps[..|ps|] == ps;
  }

  lemma EmptyBody(head: seq<Byte>)
    ensures Body(head, []) == head && |Joined([])| == 0
  {
  }

  /** The body of the loop: the PDU, the cursor, and the counts kept in the head. */
  method PutAndCount(sfn: U16, slot: U16, p: UlPdu, buf: array<Byte>, pos: nat, ghost base: seq<Byte>, ghost c: Tally, ghost done: seq<seq<Byte>>)
    returns (next: nat, ghost done': seq<seq<Byte>>)
    requires |base| == buf.Length && pos == 17 + |Joined(done)| && 17 + |Joined(done + [UlExtent(p)])| <= buf.Length
    requires HEADERS + |Body(UlHead(sfn, slot, c), done)| == pos <= buf.Length
    requires buf[..] == Overwrite(base, HEADERS, Body(UlHead(sfn, slot, c), done))
    modifies buf
    ensures done' == done + [UlExtent(p)]
    ensures next == 17 + |Joined(done')| <= buf.Length && HEADERS + |Body(UlHead(sfn, slot, AddTo(c, p)), done')| == next
    ensures buf[..] == Overwrite(base, HEADERS, Body(UlHead(sfn, slot, AddTo(c, p)), done'))
  {
    hide UlExtent, UlHead, Joined, Overwrite;
    ghost var b := UlExtent(p);
    JoinedSnoc(done, b);
    var size := PutUlPdu(p, buf, pos);
    OverwriteMeets(base, HEADERS, UlHead(sfn, slot, c) + Joined(done), b);
    assert UlHead(sfn, slot, c) + Joined(done) + b == UlHead(sfn, slot, c) + Joined(done + [b]);
    BumpHead(p, sfn, slot, buf, base, c, Joined(done + [b]));
    next, done' := pos + size, done + [b];
  }

  lemma EmptyTally(k: Counters)
    ensures TallyOf([]) == Tally(0, 0, 0, 0) && CountUl(k, Tally(0, 0, 0, 0)) == k
  {
  }

  lemma TallySnoc(ps: seq<UlPdu>, i: nat)
    requires i < |ps|
    ensures TallyOf(ps[..i + 1]) == AddTo(TallyOf(ps[..i]), ps[i])
  {
    assert ps[..i + 1][..i] == ps[..i];
  }

  // ---------------------------------------------------------------- what the UL_TTI receiver sees

  lemma HeadRead(pre: seq<Byte>, sfn: U16, slot: U16, c: Tally, rest: seq<Byte>)
    requires |pre| == HEADERS
    ensures var s := pre + (UlHead(sfn, slot, c) + rest);
            && U16At(s, 8) == sfn && U16At(s, 10) == slot && s[12] == (c.prach + c.pusch + c.pucch + c.srs) % 0x100
            && s[13] == (if c.prach > 0 then 1 else 0) && s[14] == c.pusch % 0x100 && s[15] == c.pucch % 0x100 && s[16] == 0
  {
    var counts: seq<Byte> := [(c.prach + c.pusch + c.pucch + c.srs) % 0x100, if c.prach > 0 then 1 else 0, c.pusch % 0x100, c.pucch % 0x100, 0];
    var s := pre + (UlHead(sfn, slot, c) + rest);
    assert UlHead(sfn, slot, c) == Le16(sfn) + Le16(slot) + counts;
    assert s == pre + Le16(sfn) + (Le16(slot) + counts + rest);
    U16Back(pre, sfn, Le16(slot) + counts + rest);
    assert s == (pre + Le16(sfn)) + Le16(slot) + (counts + rest);
    U16Back(pre + Le16(sfn), slot, counts + rest);
    assert s == (pre + Le16(sfn) + Le16(slot)) + counts + rest;
    assert forall i :: 0 <= i < 5 ==> s[12 + i] == counts[i];
  }

  function Pusches(ps: seq<UlPdu>): set<nat>
  {
    set i: nat | i < |ps| && ps[i].PuschPdu?
  }

  function Pucches(ps: seq<UlPdu>): set<nat>
  {
    set i: nat | i < |ps| && ps[i].PucchPdu?
  }

  function Praches(ps: seq<UlPdu>): set<nat>
  {
    set i: nat | i < |ps| && ps[i].PrachPdu?
  }

  function Srses(ps: seq<UlPdu>): set<nat>
  {
    set i: nat | i < |ps| && ps[i].SrsPdu?
  }

  predicate HasPrach(ps: seq<UlPdu>)
  {
    exists i :: 0 <= i < |ps| && ps[i].PrachPdu?
  }

  /** The headers and the head, as a reader of the message takes them: the counts are those of the list. */
  lemma {:induction false} UlHeadRead(cellId: Byte, sfn: U16, slot: U16, ps: seq<UlPdu>)
    requires |Body(UlHead(sfn, slot, TallyOf(ps)), UlExtents(ps))| < 0x1_0000_0000
    ensures var s := Message(cellId, UL_TTI_REQUEST, UlHead(sfn, slot, TallyOf(ps)), UlExtents(ps));
            && s[0] == 1 && s[1] == cellId && U16At(s, 2) == 0x81 && U32At(s, 4) == |s| - 8
            && U16At(s, 8) == sfn && U16At(s, 10) == slot
            && s[12] == |ps| % 0x100 && s[13] == (if HasPrach(ps) then 1 else 0)
            && s[14] == |Pusches(ps)| % 0x100 && s[15] == |Pucches(ps)| % 0x100 && s[16] == 0
  {
    hide UlExtents, HeaderBytes, UlHead, TallyOf, Pusches, Pucches, HasPrach, Joined;
    var c := TallyOf(ps);
    var h := UlHead(sfn, slot, c);
    var body := Body(h, UlExtents(ps));
    HeadRead(HeaderBytes(cellId, UL_TTI_REQUEST, |body|), sfn, slot, c, Joined(UlExtents(ps)));
    LengthDeclared(cellId, UL_TTI_REQUEST, h, UlExtents(ps));
    TallyCounts(ps);
  }

  lemma {:induction false} TallyCounts(ps: seq<UlPdu>)
    ensures var c := TallyOf(ps);
            && c.prach + c.pusch + c.pucch + c.srs == |ps| && (c.prach > 0 <==> HasPrach(ps))
            && c.pusch == |Pusches(ps)| && c.pucch == |Pucches(ps)| && c.prach == |Praches(ps)| && c.srs == |Srses(ps)|
  {
    hide Pusches, Pucches, Praches, Srses, HasPrach;
    if ps == [] {
      NothingTallied();
    } else {
      var init, last := ps[..|ps| - 1], ps[|ps| - 1];
      TallyCounts(init);
      assert ps == init + [last];
      PuschesSnoc(init, last);
      PucchesSnoc(init, last);
      PrachesSnoc(init, last);
      SrsesSnoc(init, last);
      PrachSnoc(init, last);
    }
  }

  lemma NothingTallied()
    ensures Pusches([]) == {} && Pucches([]) == {} && Praches([]) == {} && Srses([]) == {} && !HasPrach([])
  {
  }

  lemma OneMore(a: set<nat>, n: nat, more: bool)
    requires n !in a
    ensures |if more then a + {n} else a| == |a| + if more then 1 else 0
  {
  }

  lemma PuschesSnoc(init: seq<UlPdu>, last: UlPdu)
    ensures |Pusches(init + [last])| == |Pusches(init)| + if last.PuschPdu? then 1 else 0
  {
    OneMore(Pusches(init), |init|, last.PuschPdu?);
    assert Pusches(init + [last]) == if last.PuschPdu? then Pusches(init) + {|init|} else Pusches(init);
  }

  lemma PucchesSnoc(init: seq<UlPdu>, last: UlPdu)
    ensures |Pucches(init + [last])| == |Pucches(init)| + if last.PucchPdu? then 1 else 0
  {
    OneMore(Pucches(init), |init|, last.PucchPdu?);
    assert Pucches(init + [last]) == if last.PucchPdu? then Pucches(init) + {|init|} else Pucches(init);
  }

  lemma PrachesSnoc(init: seq<UlPdu>, last: UlPdu)
    ensures |Praches(init + [last])| == |Praches(init)| + if last.PrachPdu? then 1 else 0
  {
    OneMore(Praches(init), |init|, last.PrachPdu?);
    assert Praches(init + [last]) == if last.PrachPdu? then Praches(init) + {|init|} else Praches(init);
  }

  lemma SrsesSnoc(init: seq<UlPdu>, last: UlPdu)
    ensures |Srses(init + [last])| == |Srses(init)| + if last.SrsPdu? then 1 else 0
  {
    OneMore(Srses(init), |init|, last.SrsPdu?);
    assert Srses(init + [last]) == if last.SrsPdu? then Srses(init) + {|init|} else Srses(init);
  }

  /** The PDU counters gain the number of PDUs of their kind, and the others nothing. */
  lemma {:induction false} UlCounted(k: Counters, ps: seq<UlPdu>)
    ensures CountUl(k, TallyOf(ps)) ==
            k.(ulPrach := Bump(k.ulPrach, |Praches(ps)|), ulPusch := Bump(k.ulPusch, |Pusches(ps)|),
               ulPucch := Bump(k.ulPucch, |Pucches(ps)|), ulSrs := Bump(k.ulSrs, |Srses(ps)|))
  {
    hide TallyOf, Praches, Pusches, Pucches, Srses, HasPrach;
    TallyCounts(ps);
  }

  lemma PrachSnoc(init: seq<UlPdu>, last: UlPdu)
    ensures HasPrach(init + [last]) <==> last.PrachPdu? || HasPrach(init)
  {
    var ps := init + [last];
    assert ps[|init|] == last;
    if HasPrach(init) {
      var i :| 0 <= i < |init| && init[i].PrachPdu?;
      assert ps[i].PrachPdu?;
    }
  }

  function ReadUl(b: seq<Byte>): Option<UlPdu>
    requires FRAME <= |b|
  {
    match U16At(b, 0)
    case 0 =>
      var r :- ReadPrach(b[FRAME..]);
      Some(PrachPdu(r.pdu))
    case 1 =>
      var r :- ReadPusch(b[FRAME..]);
      Some(PuschPdu(r.pdu))
    case 2 =>
      var r :- ReadPucch(b[FRAME..]);
      Some(PucchPdu(r.pdu))
    case 3 =>
      var r :- ReadSrs(b[FRAME..]);
      Some(SrsPdu(r.pdu))
    case _ => None
  }

  lemma UlExtentRead(p: UlPdu)
    ensures ReadUl(UlExtent(p)) == Some(p)
  {
    hide Encode, PrachFields, PuschBody, PucchBody, SrsBody, ReadPrach, ReadPusch, ReadPucch, ReadSrs;
    match p
    case PrachPdu(x) =>
      PrachWidth(x);
      PduFramed(PRACH, Encode(PrachFields(x)));
      PrachBack(x, []);
      assert Encode(PrachFields(x)) + [] == Encode(PrachFields(x));
    case PuschPdu(x) =>
      PuschSize(x);
      PduFramed(PUSCH, PuschBody(x));
      PuschBack(x, []);
      assert PuschBody(x) + [] == PuschBody(x);
    case PucchPdu(x) =>
      PucchSize(x);
      PduFramed(PUCCH, PucchBody(x));
      PucchBack(x, []);
      assert PucchBody(x) + [] == PucchBody(x);
    case SrsPdu(x) =>
      SrsSize(x);
      PduFramed(SRS, SrsBody(x));
      SrsBack(x, []);
      assert SrsBody(x) + [] == SrsBody(x);
  }

  /** Walking a UL_TTI.request of fewer than 256 PDUs by its own count, and reading what is met, gives back the list. */
  lemma {:induction false} UlReceived(cellId: Byte, sfn: U16, slot: U16, ps: seq<UlPdu>)
    requires |Body(UlHead(sfn, slot, TallyOf(ps)), UlExtents(ps))| < 0x1_0000_0000 && |ps| < 0x100
    ensures var s := Message(cellId, UL_TTI_REQUEST, UlHead(sfn, slot, TallyOf(ps)), UlExtents(ps));
            && 17 <= |s| && Hop(s[17..], s[12]) == Some(Hops(UlExtents(ps), []))
            && forall i :: 0 <= i < |ps| ==> ReadUl(UlExtents(ps)[i]) == Some(ps[i])
  {
    hide Hop, ReadUl, TallyOf, UlExtent, UlHead, Pusches, Pucches, HasPrach;
    var es := UlExtents(ps);
    Walkable(cellId, UL_TTI_REQUEST, UlHead(sfn, slot, TallyOf(ps)), es);
    UlHeadRead(cellId, sfn, slot, ps);
    assert es[..|es|] == es;
    forall i | 0 <= i < |ps| ensures ReadUl(es[i]) == Some(ps[i]) {
      UlExtentRead(ps[i]);
    }
  }

  lemma {:induction false} JoinedAlike(es: seq<seq<Byte>>, width: nat)
    requires forall i :: 0 <= i < |es| ==> |es[i]| == width
    ensures |Joined(es)| == |es| * width
  {
    if es != [] {
      JoinedAlike(es[1..], width);
    }
  }

  /** A list of 256 PRACH PDUs makes a message of 3089 bytes. The count in its head is zero, and a walk by that count
      stops in front of the first PDU. */
  lemma {:induction false} CountWraps(cellId: Byte, sfn: U16, slot: U16, p: Prach)
    ensures var ps := seq(256, i => PrachPdu(p));
            var head, es := UlHead(sfn, slot, TallyOf(ps)), UlExtents(ps);
            && |Body(head, es)| == 3081
            && var s := Message(cellId, UL_TTI_REQUEST, head, es);
               |s| == 3089 && s[12] == 0 && Hop(s[17..], s[12]) == Some(Hops([], Joined(es))) && |Joined(es)| == 3072
  {
    hide TallyOf, UlHead, HeaderBytes, Hop, Encode, PrachFields, Joined, Pusches, Pucches, HasPrach;
    var ps := seq(256, i => PrachPdu(p));
    var es := UlExtents(ps);
    PrachWidth(p);
    JoinedAlike(es, 12);
    UlHeadRead(cellId, sfn, slot, ps);
    Walkable(cellId, UL_TTI_REQUEST, UlHead(sfn, slot, TallyOf(ps)), es);
    assert es[..0] == [] && es[0..] == es;
  }

  // ================================================================ UL_DCI

  function DciExtent(p: D.Pdcch): (b: seq<Byte>)
    requires D.PdcchValid(p)
    ensures Framed(b)
  {
    D.PdcchSize(p);
    PduFramed(D.PDCCH, D.PdcchBody(p));
    PduBytes(D.PDCCH, D.PdcchBody(p))
  }

  function DciExtents(ps: seq<D.Pdcch>): (es: seq<seq<Byte>>)
    requires forall i :: 0 <= i < |ps| ==> D.PdcchValid(ps[i])
    ensures |es| == |ps| && AllFramed(es)
    ensures forall i :: 0 <= i < |ps| ==> es[i] == DciExtent(ps[i])
  {
    seq(|ps|, i requires 0 <= i < |ps| => DciExtent(ps[i]))
  }

  function DciHead(sfn: U16, slot: U16, n: nat): (h: seq<Byte>)
    ensures |h| == 5
  {
    Le16(sfn) + Le16(slot) + [n % 0x100]
  }

  /** serialize_ul_dci_request; its length guard asks for three bytes more than the head needs. */
  method SerializeUlDci(cellId: Byte, sfn: U16, slot: U16, ps: seq<D.Pdcch>, buf: array<Byte>) returns (bytes: int)
    requires forall i :: 0 <= i < |ps| ==> D.PdcchValid(ps[i])
    requires 16 <= buf.Length ==> 13 + |Joined(DciExtents(ps))| <= buf.Length < 0x8000_0000
    modifies buf
    ensures buf.Length < 16 ==> bytes == -1 && buf[..] == old(buf[..])
    ensures 16 <= buf.Length ==>
              var head := DciHead(sfn, slot, |ps|);
              && |Body(head, DciExtents(ps))| < 0x1_0000_0000
              && bytes == |Message(cellId, UL_DCI_REQUEST, head, DciExtents(ps))| <= buf.Length
              && buf[..] == Overwrite(old(buf[..]), 0, Message(cellId, UL_DCI_REQUEST, head, DciExtents(ps)))
  {
    hide DciExtents, DciHead;
    if buf.Length < 16 {
      return -1;
    }
    var next := PutDciBody(sfn, slot, ps, buf);
    WriteHeaders(buf, cellId, UL_DCI_REQUEST, next - HEADERS, old(buf[..]), Body(DciHead(sfn, slot, |ps|), DciExtents(ps)));
    bytes := next;
  }

  method PutDciBody(sfn: U16, slot: U16, ps: seq<D.Pdcch>, buf: array<Byte>) returns (next: nat)
    requires forall i :: 0 <= i < |ps| ==> D.PdcchValid(ps[i])
    requires 13 + |Joined(DciExtents(ps))| <= buf.Length
    modifies buf
    ensures var body := Body(DciHead(sfn, slot, |ps|), DciExtents(ps));
            next == HEADERS + |body| <= buf.Length && buf[..] == Overwrite(old(buf[..]), HEADERS, body)
  {
    hide DciExtent, Joined, DciHead, Overwrite, DciExtents;
    ghost var base, head := buf[..], DciHead(sfn, slot, |ps|);
    ghost var all, done: seq<seq<Byte>> := DciExtents(ps), [];
    Copy(buf, HEADERS, DciHead(sfn, slot, |ps|));
    JoinedNone();
    assert head == head + Joined([]);
    next := 13;
    for i := 0 to |ps|
      invariant done == all[..i] && next == 13 + |Joined(done)|
      invariant next <= buf.Length && buf[..] == Overwrite(base, HEADERS, head + Joined(done))
    {
      ghost var b := DciExtent(ps[i]);
      assert all[..i + 1] == done + [b];
      JoinedSnoc(done, b);
      JoinedPrefix(done + [b], all);
      var size := PutDci(ps[i], buf, next);
      OverwriteMeets(base, HEADERS, head + Joined(done), b);
      assert head + Joined(done) + b == head + Joined(done + [b]);
      next, done := next + size, done + [b];
    }
    assert all[..|ps|] == all;
  }

  /** The PDCCH writer, whose PDU type is then written once more with the same value. */
  method PutDci(p: D.Pdcch, buf: array<Byte>, pos: nat) returns (size: nat)
    requires D.PdcchValid(p) && pos + |DciExtent(p)| <= buf.Length
    modifies buf
    ensures size == |DciExtent(p)| && buf[..] == Overwrite(old(buf[..]), pos, DciExtent(p))
  {
    hide D.PdcchBody;
    D.PdcchSize(p);
    ghost var base, n := buf[..], |D.PdcchBody(p)| + FRAME;
    size := D.SerializePdcch(p, buf, pos);
    var again := Le16(D.PDCCH);
    Copy(buf, pos, again);
    assert [] + again + (Le16(n) + D.PdcchBody(p)) == DciExtent(p);
    OverwriteInside(base, pos, [], again, Le16(n) + D.PdcchBody(p), again);
  }

  lemma DciHeadRead(pre: seq<Byte>, sfn: U16, slot: U16, n: nat, rest: seq<Byte>)
    requires |pre| == 8
    ensures var s := pre + (DciHead(sfn, slot, n) + rest); U16At(s, 8) == sfn && U16At(s, 10) == slot && s[12] == n % 0x100
  {
    var s, head := pre + (DciHead(sfn, slot, n) + rest), DciHead(sfn, slot, n);
    assert forall i :: 0 <= i < 5 ==> s[8 + i] == head[i];
  }

  /** The headers and the head of a UL_DCI.request read back; walking one of fewer than 256 PDUs by its own count, and
      reading what is met, gives every PDU back. */
  lemma UlDciReceived(cellId: Byte, sfn: U16, slot: U16, ps: seq<D.Pdcch>)
    requires forall i :: 0 <= i < |ps| ==> D.PdcchValid(ps[i])
    requires |Body(DciHead(sfn, slot, |ps|), DciExtents(ps))| < 0x1_0000_0000 && |ps| < 0x100
    ensures var s := Message(cellId, UL_DCI_REQUEST, DciHead(sfn, slot, |ps|), DciExtents(ps));
            && 13 <= |s| && s[0] == 1 && s[1] == cellId && U16At(s, 2) == 0x83 && U32At(s, 4) == |s| - 8
            && U16At(s, 8) == sfn && U16At(s, 10) == slot && s[12] == |ps| && Hop(s[13..], s[12]) == Some(Hops(DciExtents(ps), []))
            && forall i :: 0 <= i < |ps| ==>
                 var e := DciExtents(ps)[i];
                 U16At(e, 0) == 0 && D.ReadPdcch(e[FRAME..]) == Some(Read(ps[i].(resource := D.Received(ps[i].resource)), []))
  {
    hide Hop, D.ReadPdcch, D.PdcchBody, D.Received, Joined, HeaderBytes;
    var es := DciExtents(ps);
    var head := DciHead(sfn, slot, |ps|);
    Walkable(cellId, UL_DCI_REQUEST, head, es);
    LengthDeclared(cellId, UL_DCI_REQUEST, head, es);
    DciHeadRead(HeaderBytes(cellId, UL_DCI_REQUEST, |Body(head, es)|), sfn, slot, |ps|, Joined(es));
    assert es[..|es|] == es;
    forall i | 0 <= i < |ps|
      ensures U16At(es[i], 0) == 0 && D.ReadPdcch(es[i][FRAME..]) == Some(Read(ps[i].(resource := D.Received(ps[i].resource)), []))
    {
      D.PdcchSize(ps[i]);
      PduFramed(D.PDCCH, D.PdcchBody(ps[i]));
      D.PdcchBack(ps[i], []);
      assert D.PdcchBody(ps[i]) + [] == D.PdcchBody(ps[i]);
    }
  }
}
