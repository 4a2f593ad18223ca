/** RACH.indication (SCF 222, section 3.4.11): preambles nested in PDUs nested in a message. */
module RachMessages {
  import opened Wire
  import opened Reports

  const MESSAGE_HEAD: nat := 13
  const PDU_HEAD: nat := 8
  const PREAMBLE: nat := 7

  // ---------------------------------------------------------------- what a message says

  function Preambles(s: seq<Byte>, n: nat): (ps: seq<Preamble>)
    ensures |ps| <= n && PREAMBLE * |ps| <= |s|
    decreases n
  {
    if n == 0 || |s| < PREAMBLE then []
    else [Preamble(s[0], U32At(s, 3))] + Preambles(s[PREAMBLE..], n - 1)
  }

  function First(slot: SlotPoint, s: seq<Byte>): RachIndication
    requires PDU_HEAD <= |s|
  {
    RachIndication(slot, s[2], s[3], s[4], s[5], s[6], Preambles(s[PDU_HEAD..], s[7]))
  }

  function FirstSize(s: seq<Byte>): (n: nat)
    requires PDU_HEAD <= |s|
    ensures PDU_HEAD <= n <= |s|
  {
    PDU_HEAD + PREAMBLE * |Preambles(s[PDU_HEAD..], s[7])|
  }

  function Walk(slot: SlotPoint, s: seq<Byte>, n: nat): seq<RachIndication>
    decreases n
  {
    if n == 0 || |s| < PDU_HEAD then []
    else [First(slot, s)] + Walk(slot, s[FirstSize(s)..], n - 1)
  }

  function Notifications(s: seq<Byte>, numerology: nat): seq<RachIndication>
  {
    if |s| < MESSAGE_HEAD then []
    else Walk(SlotPoint(numerology, U16At(s, 8), U16At(s, 10)), s[MESSAGE_HEAD..], s[12])
  }

  // ---------------------------------------------------------------- the dispatcher

  lemma PreambleStep(s: seq<Byte>, p: nat, n: nat, done: seq<Preamble>, all: seq<Preamble>)
    requires p + PREAMBLE <= |s| && 0 < n && done + Preambles(s[p..], n) == all
    ensures done + [Preamble(s[p], U32At(s, p + 3))] + Preambles(s[p + PREAMBLE..], n - 1) == all
  {
    assert s[p..][PREAMBLE..] == s[p + PREAMBLE..];
    var x := Preamble(s[p], U32At(s, p + 3));
    assert Preambles(s[p..], n) == [x] + Preambles(s[p + PREAMBLE..], n - 1);
    assert done + [x] + Preambles(s[p + PREAMBLE..], n - 1) == done + ([x] + Preambles(s[p + PREAMBLE..], n - 1));
  }

  /** The inner loop: the preambles that still lie in the buffer. */
  method ReadPreambles(buf: array<Byte>, bufLen: nat, p: nat, n: nat) returns (ps: seq<Preamble>, next: nat)
    requires p <= bufLen <= buf.Length
    ensures ps == Preambles(buf[..bufLen][p..], n) && next == p + PREAMBLE * |ps|
  {
    hide Preambles;
    ghost var s := buf[..bufLen];
    ghost var all := Preambles(s[p..], n);
    ps, next := [], p;
    var j := 0;
    assert [] + all == all;
    while j < n
      invariant 0 <= j <= n && p <= next <= bufLen && next == p + PREAMBLE * j && j == |ps|
      invariant ps + Preambles(s[next..], n - j) == all
    {
      if next + PREAMBLE > bufLen {
        break;
      }
      PreambleStep(s, next, n - j, ps, all);
      var r := buf[next..next + PREAMBLE];
      assert forall i :: 0 <= i < PREAMBLE ==> r[i] == s[next + i];
      ps := ps + [Preamble(r[0], U32At(r, 3))];
      next := next + PREAMBLE;
      j := j + 1;
    }
    NoPreambles(s[next..], n - j);
    assert ps + [] == ps;
  }

  lemma NoPreambles(s: seq<Byte>, n: nat)
    requires n == 0 || |s| < PREAMBLE
    ensures Preambles(s, n) == []
  {
  }

  /** The body of the outer loop: one PDU and its preambles. */
  method ReadPdu(buf: array<Byte>, bufLen: nat, p: nat, slot: SlotPoint) returns (ind: RachIndication, next: nat)
    requires p + PDU_HEAD <= bufLen <= buf.Length
    ensures ind == First(slot, buf[..bufLen][p..]) && next == p + FirstSize(buf[..bufLen][p..])
  {
    var head := buf[p..p + PDU_HEAD];
    assert forall i :: 0 <= i < PDU_HEAD ==> head[i] == buf[..bufLen][p..][i];
    var ps;
    ps, next := ReadPreambles(buf, bufLen, p + PDU_HEAD, head[7]);
    assert buf[..bufLen][p..][PDU_HEAD..] == buf[..bufLen][p + PDU_HEAD..];
    ind := RachIndication(slot, head[2], head[3], head[4], head[5], head[6], ps);
  }

  lemma Start(c: Counters, all: seq<RachIndication>)
    ensures [] + all == all && CountRach(c, 0) == c
  {
  }

  lemma WalkStep(slot: SlotPoint, s: seq<Byte>, p: nat, n: nat, done: seq<RachIndication>, all: seq<RachIndication>)
    requires p + PDU_HEAD <= |s| && 0 < n && done + Walk(slot, s[p..], n) == all
    ensures done + [First(slot, s[p..])] + Walk(slot, s[p + FirstSize(s[p..])..], n - 1) == all
  {
    hide First, FirstSize;
    assert s[p..][FirstSize(s[p..])..] == s[p + FirstSize(s[p..])..];
  }

  lemma End(slot: SlotPoint, s: seq<Byte>, n: nat, done: seq<RachIndication>)
    requires n == 0 || |s| < PDU_HEAD
    ensures done + Walk(slot, s, n) == done
  {
  }

  method Report(n: Notifier, m: Metrics, r: RachIndication)
    modifies n`rach, m
    ensures n.rach == old(n.rach) + [r] && m.now == CountRach(old(m.now), 1)
  {
    n.rach := n.rach + [r];
    m.now := m.now.(rachTotal := Bump(m.now.rachTotal, 1));
  }

  lemma Snoc(c: Counters, k: nat)
    ensures CountRach(CountRach(c, k), 1) == CountRach(c, k + 1)
  {
    BumpBump(c.rachTotal, k, 1);
  }

  /** dispatch_rach_indication. */
  method Dispatch(buf: array<Byte>, bufLen: nat, numerology: nat, n: Notifier, m: Metrics)
    requires bufLen <= buf.Length
    modifies n`rach, m
    ensures n.rach == old(n.rach) + Notifications(buf[..bufLen], numerology)
    ensures m.now == CountRach(old(m.now), |Notifications(buf[..bufLen], numerology)|)
  {
    hide Walk, CountRach;
    if bufLen < MESSAGE_HEAD {
      Start(m.now, n.rach);
      return;
    }
    var head := buf[..MESSAGE_HEAD];
    assert head == buf[..bufLen][..MESSAGE_HEAD];
    DispatchAll(buf, bufLen, SlotPoint(numerology, U16At(head, 8), U16At(head, 10)), head[12], n, m);
  }

  method DispatchAll(buf: array<Byte>, bufLen: nat, slot: SlotPoint, nofPdus: nat, n: Notifier, m: Metrics)
    requires MESSAGE_HEAD <= bufLen <= buf.Length
    modifies n`rach, m
    ensures var all := Walk(slot, buf[..bufLen][MESSAGE_HEAD..], nofPdus);
            n.rach == old(n.rach) + all && m.now == CountRach(old(m.now), |all|)
  {
    hide Walk, First, FirstSize, CountRach;
    ghost var s := buf[..bufLen];
    ghost var all := Walk(slot, s[MESSAGE_HEAD..], nofPdus);
    ghost var done: seq<RachIndication> := [];
    Start(m.now, all);
    var p: int := MESSAGE_HEAD;
    var i := 0;
    while i < nofPdus
      invariant 0 <= i <= nofPdus && MESSAGE_HEAD <= p <= bufLen
      invariant done + Walk(slot, s[p..], nofPdus - i) == all
      invariant n.rach == old(n.rach) + done && m.now == CountRach(old(m.now), |done|)
    {
      if p + PDU_HEAD > bufLen {
        break;
      }
      var ind, next := ReadPdu(buf, bufLen, p, slot);
      WalkStep(slot, s, p, nofPdus - i, done, all);
      Snoc(old(m.now), |done|);
      Report(n, m, ind);
      done := done + [ind];
      p, i := next, i + 1;
    }
    End(slot, s[p..], nofPdus - i, done);
  }

  // ---------------------------------------------------------------- round trip

  datatype WirePreamble = WirePreamble(index: Byte, timingAdvance: U16, power: U32)

  datatype WirePdu = WirePdu(cellId: U16, symbol: Byte, slotIndex: Byte, ra: Byte, avgRssi: Byte, avgSnr: Byte, preambles: seq<WirePreamble>)

  predicate WellFormed(w: WirePdu)
  {
    |w.preambles| < 0x100
  }

  function PreambleBytes(w: WirePreamble): (b: seq<Byte>)
    ensures |b| == PREAMBLE
  {
    [w.index] + Le16(w.timingAdvance) + Le32(w.power)
  }

  function PreamblesBytes(ws: seq<WirePreamble>): seq<Byte>
  {
    if ws == [] then [] else PreambleBytes(ws[0]) + PreamblesBytes(ws[1..])
  }

  function HeadBytes(w: WirePdu): (b: seq<Byte>)
    requires WellFormed(w)
    ensures |b| == PDU_HEAD
  {
    Le16(w.cellId) + [w.symbol, w.slotIndex, w.ra, w.avgRssi, w.avgSnr, |w.preambles|]
  }

  function PduBytes(w: WirePdu): seq<Byte>
    requires WellFormed(w)
  {
    HeadBytes(w) + PreamblesBytes(w.preambles)
  }

  function AllPduBytes(ws: seq<WirePdu>): seq<Byte>
    requires forall i :: 0 <= i < |ws| ==> WellFormed(ws[i])
  {
    if ws == [] then [] else PduBytes(ws[0]) + AllPduBytes(ws[1..])
  }

  function Meaning(slot: SlotPoint, w: WirePdu): RachIndication
  {
    RachIndication(slot, w.symbol, w.slotIndex, w.ra, w.avgRssi, w.avgSnr,
                   seq(|w.preambles|, i requires 0 <= i < |w.preambles| => Preamble(w.preambles[i].index, w.preambles[i].power)))
  }

  lemma {:induction false} PreamblesBack(ws: seq<WirePreamble>, post: seq<Byte>)
    ensures Preambles(PreamblesBytes(ws) + post, |ws|) == seq(|ws|, i requires 0 <= i < |ws| => Preamble(ws[i].index, ws[i].power))
    ensures |PreamblesBytes(ws)| == PREAMBLE * |ws|
  {
    if ws != [] {
      var b := PreambleBytes(ws[0]);
      var rest := PreamblesBytes(ws[1..]) + post;
      assert PreamblesBytes(ws) + post == b + rest;
      PreambleBack(ws[0], rest);
      PreamblesBack(ws[1..], post);
      FirstPreamble(PreamblesBytes(ws) + post, |ws|);
    }
  }

  lemma FirstPreamble(s: seq<Byte>, n: nat)
    requires 0 < n && PREAMBLE <= |s|
    ensures Preambles(s, n) == [Preamble(s[0], U32At(s, 3))] + Preambles(s[PREAMBLE..], n - 1)
  {
  }

  lemma PreambleBack(w: WirePreamble, rest: seq<Byte>)
    ensures var s := PreambleBytes(w) + rest; s[0] == w.index && U32At(s, 3) == w.power && s[PREAMBLE..] == rest
  {
    assert forall i :: 0 <= i < PREAMBLE ==> (PreambleBytes(w) + rest)[i] == PreambleBytes(w)[i];
    JoinWord(w.power);
  }

  lemma PduBack(slot: SlotPoint, w: WirePdu, post: seq<Byte>)
    requires WellFormed(w)
    ensures var s := PduBytes(w) + post; First(slot, s) == Meaning(slot, w) && FirstSize(s) == |PduBytes(w)|
  {
    var s := PduBytes(w) + post;
    assert s == HeadBytes(w) + (PreamblesBytes(w.preambles) + post);
    assert forall i :: 0 <= i < PDU_HEAD ==> s[i] == HeadBytes(w)[i];
    assert s[PDU_HEAD..] == PreamblesBytes(w.preambles) + post;
    PreamblesBack(w.preambles, post);
  }

  lemma {:induction false} WalkBack(slot: SlotPoint, ws: seq<WirePdu>, post: seq<Byte>)
    requires forall i :: 0 <= i < |ws| ==> WellFormed(ws[i])
    ensures Walk(slot, AllPduBytes(ws) + post, |ws|) == seq(|ws|, i requires 0 <= i < |ws| => Meaning(slot, ws[i]))
  {
    hide First, FirstSize, PduBytes, Meaning;
    if ws != [] {
      var rest := AllPduBytes(ws[1..]) + post;
      PduBack(slot, ws[0], rest);
      assert AllPduBytes(ws) + post == PduBytes(ws[0]) + rest;
      assert (PduBytes(ws[0]) + rest)[|PduBytes(ws[0])|..] == rest;
      WalkBack(slot, ws[1..], post);
    }
  }

  function MessageBytes(envelope: seq<Byte>, sfn: U16, slot: U16, ws: seq<WirePdu>): seq<Byte>
    requires |envelope| == 8 && |ws| < 0x100
    requires forall i :: 0 <= i < |ws| ==> WellFormed(ws[i])
  {
    envelope + Le16(sfn) + Le16(slot) + [|ws|] + AllPduBytes(ws)
  }

  /** The receiver is told exactly what each PDU and each of its preambles means, in order. */
  lemma RoundTrip(envelope: seq<Byte>, sfn: U16, slot: U16, ws: seq<WirePdu>, post: seq<Byte>, numerology: nat)
    requires |envelope| == 8 && |ws| < 0x100
    requires forall i :: 0 <= i < |ws| ==> WellFormed(ws[i])
    ensures Notifications(MessageBytes(envelope, sfn, slot, ws) + post, numerology) ==
            seq(|ws|, i requires 0 <= i < |ws| => Meaning(SlotPoint(numerology, sfn, slot), ws[i]))
  {
    hide Walk, Meaning, AllPduBytes;
    var body := AllPduBytes(ws) + post;
    var s := MessageBytes(envelope, sfn, slot, ws) + post;
    assert s == envelope + Le16(sfn) + Le16(slot) + ([|ws|] + body);
    ShortMessageHeadBack(envelope, sfn, slot, |ws|, body);
    WalkBack(SlotPoint(numerology, sfn, slot), ws, post);
  }

  // ---------------------------------------------------------------- truncation

  /** `cut` is what is left of the notifications `full`: a prefix, whose last element may lack trailing preambles. */
  ghost predicate Truncates(cut: seq<RachIndication>, full: seq<RachIndication>)
  {
    && |cut| <= |full|
    && (forall i :: 0 <= i < |cut| - 1 ==> cut[i] == full[i])
    && (cut != [] ==> LacksPreambles(cut[|cut| - 1], full[|cut| - 1]))
  }

  predicate LacksPreambles(cut: RachIndication, full: RachIndication)
  {
    cut.preambles <= full.preambles && cut == full.(preambles := cut.preambles)
  }

  lemma {:induction false} PreamblesTruncate(s: seq<Byte>, c: nat, n: nat)
    requires c <= |s|
    ensures var cut, full := Preambles(s[..c], n), Preambles(s, n);
            cut <= full && (|cut| < |full| ==> c - PREAMBLE * |cut| < PREAMBLE)
    decreases n
  {
    if n > 0 && PREAMBLE <= c {
      assert s[..c][PREAMBLE..] == s[PREAMBLE..][..c - PREAMBLE];
      assert forall i :: 0 <= i < PREAMBLE ==> s[..c][i] == s[i];
      PreamblesTruncate(s[PREAMBLE..], c - PREAMBLE, n - 1);
    }
  }

  /** Cutting a PDU: either it is whole, or it lost trailing preambles and nothing can follow it. */
  lemma FirstTruncated(slot: SlotPoint, s: seq<Byte>, c: nat)
    requires PDU_HEAD <= c <= |s|
    ensures LacksPreambles(First(slot, s[..c]), First(slot, s))
    ensures if First(slot, s[..c]) == First(slot, s) then
              var e := FirstSize(s); FirstSize(s[..c]) == e <= c && s[..c][e..] == s[e..][..c - e]
            else
              c - FirstSize(s[..c]) < PREAMBLE
  {
    assert forall i :: 0 <= i < PDU_HEAD ==> s[..c][i] == s[i];
    assert s[..c][PDU_HEAD..] == s[PDU_HEAD..][..c - PDU_HEAD];
    PreamblesTruncate(s[PDU_HEAD..], c - PDU_HEAD, s[7]);
    if First(slot, s[..c]) == First(slot, s) {
      var e := FirstSize(s[..c]);
      assert s[..c][e..] == s[e..][..c - e];
    }
  }

  lemma {:induction false} WalkTruncates(slot: SlotPoint, s: seq<Byte>, c: nat, n: nat)
    requires c <= |s|
    ensures Truncates(Walk(slot, s[..c], n), Walk(slot, s, n))
    decreases n
  {
    hide First, FirstSize, Truncates, LacksPreambles;
    if n > 0 && PDU_HEAD <= c {
      FirstTruncated(slot, s, c);
      var e := FirstSize(s);
      var rest := Walk(slot, s[e..], n - 1);
      if First(slot, s[..c]) == First(slot, s) {
        WalkTruncates(slot, s[e..], c - e, n - 1);
        TruncatesCons(First(slot, s), Walk(slot, s[e..][..c - e], n - 1), rest);
      } else {
        assert Walk(slot, s[..c][FirstSize(s[..c])..], n - 1) == [];
        assert Walk(slot, s[..c], n) == [First(slot, s[..c])];
        TruncatesLast(First(slot, s[..c]), First(slot, s), rest);
      }
    } else {
      TruncatesNil(Walk(slot, s, n));
    }
  }

  lemma TruncatesCons(x: RachIndication, cut: seq<RachIndication>, full: seq<RachIndication>)
    requires Truncates(cut, full)
    ensures Truncates([x] + cut, [x] + full)
  {
  }

  lemma TruncatesLast(x: RachIndication, y: RachIndication, full: seq<RachIndication>)
    requires LacksPreambles(x, y)
    ensures Truncates([x], [y] + full)
  {
  }

  lemma TruncatesNil(full: seq<RachIndication>)
    ensures Truncates([], full)
  {
  }

  /** Cutting a message anywhere loses notifications only at the end, and preambles only of the last one kept. */
  lemma Truncation(s: seq<Byte>, c: nat, numerology: nat)
    requires c <= |s|
    ensures Truncates(Notifications(s[..c], numerology), Notifications(s, numerology))
  {
    hide Walk, Truncates;
    TruncatesNil(Notifications(s, numerology));
    if MESSAGE_HEAD <= c {
      assert forall i :: 0 <= i < c ==> s[..c][i] == s[i];
      var slot := SlotPoint(numerology, U16At(s, 8), U16At(s, 10));
      assert s[..c][MESSAGE_HEAD..] == s[MESSAGE_HEAD..][..c - MESSAGE_HEAD];
      WalkTruncates(slot, s[MESSAGE_HEAD..], c - MESSAGE_HEAD, s[12]);
    }
  }
}
